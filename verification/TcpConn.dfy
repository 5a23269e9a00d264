/** One end of a TCP connection: the connection record with its input, timer and user calls. */
module TcpConn {
  import opened Common
  import opened SeqNum
  import opened TcpSender
  import opened TcpReceiver
  import opened TcpSteps

  const LINK_DOWN := 1
  const CONN_TIMEOUT := 7
  const UNACKED_TIMEOUT := 9
  const PEER_CLOSED := 10
  const NET_TIMEOUT := 12

  /** The segment tells the truth about the sending end `me`: its bytes are those of the stream, and
      it acknowledges nothing beyond pos. */
  ghost predicate PacketOk(p: Packet, me: Peer, irs: nat, pos: int) {
    && SegOk(p.seg, p.off, me.isn, me.stream, me.fin)
    && (p.seg.hasAck ==> p.seg.ack == At(irs, p.ack) && 0 <= p.ack <= pos)
  }

  ghost predicate PacketsOk(ps: seq<Packet>, me: Peer, irs: nat, pos: int) {
    forall p <- ps :: PacketOk(p, me, irs, pos)
  }

  /** The segments are those of the packets. */
  ghost predicate Carry(segs: seq<Segment>, ps: seq<Packet>) {
    |ps| == |segs| && forall i | 0 <= i < |ps| :: ps[i].seg == segs[i]
  }

  /** Segments sent with acknowledgement position ack, as packets. */
  lemma PacketsFrom(segs: seq<Segment>, offs: seq<int>, h: Header, me: Peer, irs: nat, ack: int)
    returns (ps: seq<Packet>)
    requires SegsOk(segs, offs, h, me.stream, me.fin) && h.iss == me.isn
    requires (exists g <- segs :: g.hasAck) ==> h.ack == At(irs, ack) && 0 <= ack
    ensures Carry(segs, ps) && PacketsOk(ps, me, irs, ack) && Segs(ps) == segs && Offs(ps) == offs
    ensures forall p <- ps :: p.seg.wnd == h.wnd && p.ack == ack
  {
    ps := seq(|segs|, i requires 0 <= i < |segs| => Packet(segs[i], offs[i], ack));
  }

  lemma PacketsJoin(s: seq<Segment>, p: seq<Packet>, s': seq<Segment>, p': seq<Packet>, me: Peer, irs: nat, pos: int,
                    pos': int)
    requires Carry(s, p) && Carry(s', p') && pos <= pos'
    requires PacketsOk(p, me, irs, pos) && PacketsOk(p', me, irs, pos')
    ensures Carry(s + s', p + p') && PacketsOk(p + p', me, irs, pos')
  {
  }

  /** No merge has happened yet. */
  ghost predicate Unseen(q: Rcvd) {
    |q.kept| == OOO == |q.seen| && forall i | 0 <= i < OOO :: q.seen[i] == 0
  }

  predicate FinSeen(st: State) {
    st == CloseWait || st == LastAck || st == Closing || st == TimeWait
  }

  ghost predicate RcvKey(k: nat, r: Receiver, q: Rcvd, w: Peer) {
    true
  }

  /** What was received is the peer's stream (behind a key). */
  ghost predicate Sound(r: Receiver, q: Rcvd, w: Peer) {
    forall k {:trigger RcvKey(k, r, q, w)} :: RcvKey(k, r, q, w) ==>
      if q.pos < 0 then r == EMPTY && q.taken == [] && Unseen(q) else RcvInv(r, q, w)
  }

  /** The receiving side in each state: nothing before the peer's SYN; a live state shows whether
      the FIN has come. */
  ghost predicate RcvOk(st: State, r: Receiver, q: Rcvd, irs: nat, w: Peer) {
    && Sound(r, q, w)
    && if q.pos < 0 then q.pos == -1 && (st == Listen || st == SynSent || st == Closed)
       else
         && r.nxt == At(irs, q.pos) && irs == w.isn && st !in {Listen, SynSent}
         && (Live(st) ==> (r.finReceived <==> FinSeen(st)))
  }

  lemma NewSenderOk(iss: nat, st: State, wnd: nat)
    requires iss < 0x1_0000_0000 && Handshake(st)
    ensures CanSend(st, NewSender(iss).(wnd := wnd), NEW_SENT, iss)
  {
    WrapMod(iss);
    PlusWrap(iss, 1);
  }

  /** The peer's SYN makes its stream known. */
  lemma SynOk(r: Receiver, q: Rcvd, w: Peer, seqNo: nat)
    requires seqNo == At(w.isn, -1) && w.isn < 0x1_0000_0000 && q.pos < 0 && Sound(r, q, w)
    ensures seqNo == w.isn && Plus(seqNo, 1) == At(w.isn, 0) && Sound(EMPTY.(nxt := Plus(seqNo, 1)), q.(pos := 0), w)
    ensures r == EMPTY && q.taken == []
  {
    assert RcvKey(0, r, q, w);
    WrapMod(w.isn);
    PlusWrap(w.isn, 1);
  }

  /** The application takes n bytes from the front of the buffer. */
  lemma TakeOk(r: Receiver, q: Rcvd, w: Peer, n: nat)
    requires Sound(r, q, w) && n <= |r.rbuf|
    ensures Sound(r.(rbuf := r.rbuf[n..]), q.(taken := q.taken + r.rbuf[..n]), w) && q.taken + r.rbuf[..n] <= w.stream
    ensures r.finReceived && n == |r.rbuf| ==> w.fin && q.taken + r.rbuf == w.stream
    ensures r.rbuf != [] ==> q.pos >= 0
  {
    assert RcvKey(0, r, q, w);
    assert (q.taken + r.rbuf[..n]) + r.rbuf[n..] == q.taken + r.rbuf;
    if q.pos >= 0 && !r.finReceived {
      SameSlots(r, q, r.(rbuf := r.rbuf[n..]), q.(taken := q.taken + r.rbuf[..n]));
    }
  }

  /** The SYN is acknowledged: nothing is in flight. */
  lemma SynAcked(s: Sender, o: Sent, iss: nat, wnd: nat, rto: nat)
    requires SndOk(SynSent, s, o, iss) && rto > 0
    ensures CanSend(Established, s.(una := Plus(iss, 1), wnd := wnd, retries := 0, retxAt := 0, rto := rto),
                    o.(una := 0), iss)
  {
    OpenSnd(SynSent, s, o, iss);
    PlusWrap(iss, 1);
  }

  /** An acknowledgement number is that of our SYN exactly if it acknowledges position 0. */
  lemma AcksSyn(iss: nat, o: Sent, g: Segment, a: int)
    requires iss < 0x1_0000_0000 && (g.hasAck ==> g.ack == At(iss, a) && 0 <= a && Near(a, o.una) && Near(a, o.max))
    requires o.una == -1
    ensures g.hasAck ==> (g.ack == Plus(iss, 1) <==> a == 0)
  {
    PlusWrap(iss, 1);
    if g.hasAck {
      Compare(iss + 1 + a, iss + 1);
    }
  }

  /** What the acknowledgement of a live connection may be. */
  lemma SynNumber(iss: nat, st: State, s: Sender, o: Sent, g: Segment, a: int)
    requires iss < 0x1_0000_0000 && SndOk(st, s, o, iss) && g.ack == At(iss, a) && 0 <= a && Near(a, o.una)
    requires Near(a, o.max)
    ensures SndInv(s, o, iss) && RecInv(s, o, iss) && Armed(s, o) && PhaseOf(st, s)
    ensures if Handshake(st) then g.ack == Plus(iss, 1) <==> a == 0 else o.una >= 0
    ensures Handshake(st) ==> o.max >= 0
  {
    OpenSnd(st, s, o, iss);
    PlusWrap(iss, 1);
    if Handshake(st) {
      Compare(iss + 1 + a, iss + 1);
    }
  }

  lemma SynPosition(s: Sender, o: Sent, iss: nat)
    requires SndOk(SynSent, s, o, iss)
    ensures o.una == -1 && s.rto > 0
  {
    OpenSnd(SynSent, s, o, iss);
  }

  /** The state stays, or our FIN has been sent. */
  predicate Kin(st: State, st': State) {
    st' == st || (st == Established && st' == FinWait1) || (st == CloseWait && st' == LastAck)
  }

  /** Why a connection is given up after a timeout. */
  function TimeoutCode(st: State, linkUp: bool): nat {
    if linkUp then (if st == SynSent then CONN_TIMEOUT else UNACKED_TIMEOUT) else LINK_DOWN
  }

  class Conn {
    const iss: nat
    var st: State
    var irs: nat
    var mss: nat
    var snd: Sender
    var rcv: Receiver
    var err: nat
    var twUntil: nat
    ghost var o: Sent
    ghost var q: Rcvd

    /** This end as the other one sees it. */
    ghost function Me(): Peer
      reads this
    {
      Peer(iss, o.stream, snd.finQueued)
    }

    ghost predicate Valid(w: Peer)
      reads this
    {
      && iss < 0x1_0000_0000 && mss > 0 && w.isn < 0x1_0000_0000
      && (Live(st) ==> SndOk(st, snd, o, iss) && TimerOk(st, snd))
      && (st == Listen ==> o == NEW_SENT && !snd.finQueued)
      && RcvOk(st, rcv, q, irs, w)
    }

    /** The segment-lifetime bound of section 3.4 of RFC 9293: its numbers are near enough for 32-bit
        comparisons. */
    ghost predicate Young(p: Packet)
      reads this
    {
      && (p.seg.hasAck ==> Near(p.ack, o.una) && Near(p.ack, o.max))
      && (q.pos >= 0 ==> Fresh(p.off, q.pos))
    }

    /** The segment is one that the other end sent, and young. */
    ghost predicate Timely(g: Segment, w: Peer, off: int, a: int)
      reads this
    {
      SegOk(g, off, w.isn, w.stream, w.fin) && (g.hasAck ==> g.ack == At(iss, a) && 0 <= a) && Young(Packet(g, off, a))
    }

    ghost function Look(): View
      reads this
    {
      View(st, irs, mss, snd, rcv, err, twUntil, o, q)
    }

    function Hdr(): Header
      reads this
    {
      Header(iss, mss, rcv.nxt, Window(rcv))
    }

    /** A slot not yet in use: it will connect or take the SYN a listener gets. */
    constructor (isn: nat, ghost w: Peer)
      requires isn < 0x1_0000_0000 && w.isn < 0x1_0000_0000
      ensures iss == isn && st == Listen && Valid(w) && q.pos == -1 && o == NEW_SENT && !snd.finQueued && err == 0
    {
      iss := isn;
      st, irs, mss, snd, rcv, err, twUntil := Listen, 0, 536, NewSender(isn), EMPTY, 0, 0;
      o, q := NEW_SENT, Rcvd([], -1, [0, 0, 0, 0, 0, 0, 0, 0], [0, 0, 0, 0, 0, 0, 0, 0]);
    }

    /** Sends what there is to send; see TcpSender.Output. */
    method Emit(ack: bool, now: nat) returns (segs: seq<Segment>, ghost ps: seq<Packet>)
      requires Live(st) && CanSend(st, snd, o, iss) && mss > 0
      requires st != SynSent ==> q.pos >= 0 && rcv.nxt == At(irs, q.pos)
      modifies this`st, this`snd, this`o
      ensures SndOk(st, snd, o, iss) && TimerOk(st, snd) && Live(st) && FinSeen(st) == FinSeen(old(st))
      ensures (st == SynSent) == (old(st) == SynSent) && (old(st) == SynRcvd ==> st == SynRcvd)
      ensures Me() == old(Me()) && o.una == old(o.una)
      ensures Carry(segs, ps) && PacketsOk(ps, Me(), irs, q.pos)
      ensures Emitted(old(Look()), ack, now, Look(), ps)
    {
      var h := Hdr();
      ghost var offs;
      st, snd, segs, o, offs := Output(st, snd, h, ack, now, o);
      ps := PacketsFrom(segs, offs, h, Me(), irs, q.pos);
    }

    /** Sends what there is to send behind segments that have been made already. */
    method EmitMore(ack: bool, now: nat, segs: seq<Segment>, ghost ps: seq<Packet>, ghost pos: int)
      returns (segs': seq<Segment>, ghost ps': seq<Packet>, ghost more: seq<Packet>)
      requires Live(st) && CanSend(st, snd, o, iss) && mss > 0
      requires st != SynSent ==> q.pos >= 0 && rcv.nxt == At(irs, q.pos)
      requires Carry(segs, ps) && PacketsOk(ps, Me(), irs, pos) && pos <= q.pos
      modifies this`st, this`snd, this`o
      ensures SndOk(st, snd, o, iss) && TimerOk(st, snd) && Live(st) && FinSeen(st) == FinSeen(old(st))
      ensures (st == SynSent) == (old(st) == SynSent) && (old(st) == SynRcvd ==> st == SynRcvd)
      ensures Me() == old(Me()) && o.una == old(o.una)
      ensures Carry(segs', ps') && PacketsOk(ps', Me(), irs, q.pos) && ps' == ps + more
      ensures Emitted(old(Look()), ack, now, Look(), more)
    {
      var next;
      next, more := Emit(ack, now);
      PacketsJoin(segs, ps, next, more, Me(), irs, pos, q.pos);
      segs', ps' := segs + next, ps + more;
    }

    /** Active open. */
    method Connect(now: nat, ghost w: Peer) returns (segs: seq<Segment>, ghost ps: seq<Packet>)
      requires Valid(w) && st == Listen
      modifies this
      ensures Valid(w) && st == SynSent && Me() == old(Me()) && o.una == -1 && q == old(q) && err == old(err)
      ensures Carry(segs, ps) && PacketsOk(ps, Me(), irs, q.pos)
      ensures Emitted(old(Look()).(st := SynSent, snd := NewSender(iss), o := NEW_SENT), false, now, Look(), ps)
    {
      snd, o := NewSender(iss), NEW_SENT;
      NewSenderOk(iss, SynSent, 0);
      st := SynSent;
      segs, ps := Emit(false, now);
    }

    /** The MSS option of the peer's SYN: some value between the limits. */
    method TakeMss() returns (m: nat)
      ensures 64 <= m <= MSS
    {
      m := *;
      m := if m < 64 then 64 else if m > MSS then MSS else m;
    }

    /** A SYN for the listener opens the connection. */
    method InputListen(g: Segment, now: nat, ghost w: Peer, ghost off: int)
      returns (segs: seq<Segment>, ghost ps: seq<Packet>)
      requires Valid(w) && st == Listen && SegOk(g, off, w.isn, w.stream, w.fin)
      modifies this
      ensures Valid(w) && Me() == old(Me()) && q.taken == old(q.taken) && q.pos >= old(q.pos) && o.una == -1
      ensures err == old(err)
      ensures g.syn && !g.hasAck ==> st == SynRcvd && q.pos == 0
      ensures Carry(segs, ps) && PacketsOk(ps, Me(), irs, q.pos)
      ensures Listened(iss, old(Look()), g, now, Look(), ps)
    {
      segs, ps := [], [];
      if g.syn && !g.hasAck {
        SynOk(rcv, q, w, g.seqNo);
        NewSenderOk(iss, SynRcvd, g.wnd);
        snd, o := NewSender(iss).(wnd := g.wnd), NEW_SENT;
        irs, rcv, q := g.seqNo, EMPTY.(nxt := Plus(g.seqNo, 1)), q.(pos := 0);
        mss := TakeMss();
        st := SynRcvd;
        segs, ps := Emit(false, now);
      }
    }

    /** The answer to our SYN completes the handshake. */
    method InputSynSent(g: Segment, now: nat, ghost w: Peer, ghost off: int, ghost a: int)
      returns (segs: seq<Segment>, ghost ps: seq<Packet>)
      requires Valid(w) && st == SynSent && Timely(g, w, off, a)
      modifies this
      ensures Valid(w) && Me() == old(Me()) && q.taken == old(q.taken) && q.pos >= old(q.pos) && err == old(err)
      ensures o.una == old(o.una) || (g.hasAck && o.una == a)
      ensures g.syn && g.hasAck && a == 0 ==> Live(st) && st != SynSent && q.pos == 0
      ensures Carry(segs, ps) && PacketsOk(ps, Me(), irs, q.pos)
      ensures Answered(old(Look()), g, a, now, Look(), ps)
    {
      segs, ps := [], [];
      SynPosition(snd, o, iss);
      AcksSyn(iss, o, g, a);
      if g.syn && g.hasAck && g.ack == Plus(iss, 1) {
        segs, ps := Establish(g, now, w, off, a);
      }
    }

    /** Our SYN is acknowledged, and theirs is in. */
    method Greet(g: Segment, ghost w: Peer, ghost off: int)
      requires Valid(w) && st == SynSent && SegOk(g, off, w.isn, w.stream, w.fin) && g.syn && g.ack == Plus(iss, 1)
      modifies this
      ensures 64 <= mss <= MSS && (snd.rto == old(snd).rto || RTO_MIN <= snd.rto <= RTO_MAX)
      ensures Look() == Greeted(old(Look()), g, mss, snd.rto)
      ensures CanSend(st, snd, o, iss) && RcvOk(st, rcv, q, irs, w) && Me() == old(Me())
    {
      SynOk(rcv, q, w, g.seqNo);
      SynPosition(snd, o, iss);
      irs, rcv, q := g.seqNo, EMPTY.(nxt := Plus(g.seqNo, 1)), q.(pos := 0);
      mss := TakeMss();
      var rto := Estimate(snd.rto);
      SynAcked(snd, o, iss, g.wnd, rto);
      snd := snd.(una := g.ack, wnd := g.wnd, retries := 0, retxAt := 0, rto := rto);
      o := o.(una := 0);
      st := Established;
    }

    /** ... and the acknowledgement of their SYN goes out, with what there is to send. */
    method Establish(g: Segment, now: nat, ghost w: Peer, ghost off: int, ghost a: int)
      returns (segs: seq<Segment>, ghost ps: seq<Packet>)
      requires Valid(w) && st == SynSent && Timely(g, w, off, a) && g.syn && g.hasAck && g.ack == Plus(iss, 1) && a == 0
      modifies this
      ensures Valid(w) && Me() == old(Me()) && q.taken == old(q.taken) && q.pos == 0 && err == old(err) && o.una == 0
      ensures Live(st) && st != SynSent && Carry(segs, ps) && PacketsOk(ps, Me(), irs, q.pos)
      ensures Answered(old(Look()), g, a, now, Look(), ps)
    {
      Greet(g, w, off);
      ghost var s0 := snd;
      segs, ps := Emit(true, now);
      assert SendsKey(0, s0, snd, Segs(ps), Offs(ps));
    }

    // ---- segments for a live connection ----

    method Fail(code: nat)
      modifies this`st, this`err, this`snd
      ensures st == Closed && err == (if old(err) != 0 then old(err) else code) && snd == old(snd).(retxAt := 0)
    {
      err := if err != 0 then err else code;
      st := Closed;
      snd := snd.(retxAt := 0);
    }

    method EnterTimeWait(now: nat)
      modifies this`st, this`snd, this`twUntil
      ensures st == TimeWait && snd == old(snd).(retxAt := 0) && twUntil == now + TIME_WAIT
    {
      st, twUntil := TimeWait, now + TIME_WAIT;
      snd := snd.(retxAt := 0);
    }

    /** An acknowledgement is taken in; it may be the last one our closing was waiting for. */
    method Acknowledge(g: Segment, now: nat, ghost a: int)
      returns (closed: bool, segs: seq<Segment>, ghost ps: seq<Packet>)
      requires Live(st) && !Handshake(st) && SndInv(snd, o, iss) && RecInv(snd, o, iss) && Armed(snd, o) && mss > 0
      requires g.ack == At(iss, a) && 0 <= a && Near(a, o.una) && Near(a, o.max) && (o.una >= 0 || (a == 0 <= o.max))
      requires PhaseOf(st, snd) && q.pos >= 0 && rcv.nxt == At(irs, q.pos)
      modifies this`st, this`snd, this`o, this`twUntil
      ensures closed == (st == Closed) && st != Listen && FinSeen(st) == (FinSeen(old(st)) && !closed)
      ensures !closed ==> CanSend(st, snd, o, iss) && !Handshake(st)
      ensures closed ==> old(st) == LastAck && o.una == |o.stream| + 1
      ensures Me() == old(Me()) && (if old(o.una) < a <= old(o.max) then o.una == a else o.una == old(o.una))
      ensures Carry(segs, ps) && PacketsOk(ps, Me(), irs, q.pos)
      ensures Acknowledged(old(Look()), g, a, now, Look(), ps)
    {
      var h := Hdr();
      ghost var offs;
      ghost var v := Look();
      snd, segs, o, offs := ProcessAck(snd, h, g.ack, g.wnd, SegLen(g) == 0, now, o, a);
      ps := PacketsFrom(segs, offs, h, Me(), irs, q.pos);
      ghost var s := snd;
      closed := AfterAck(now);
      assert AckDone(v.snd, v.o, a, g.wnd, SegLen(g) == 0, now, mss, s, o, Segs(ps), Offs(ps));
    }

    /** The closing goes one state on when our FIN is received. */
    method AfterAck(now: nat) returns (closed: bool)
      requires Live(st) && !Handshake(st) && SndInv(snd, o, iss) && RecInv(snd, o, iss) && Armed(snd, o) && o.una >= 0
      requires PhaseOf(st, snd.(finAcked := st == FinWait2 || st == TimeWait))
      requires (st == FinWait2 || st == TimeWait) ==> snd.finAcked
      modifies this`st, this`snd, this`twUntil
      ensures closed == (st == Closed) && st != Listen && FinSeen(st) == (FinSeen(old(st)) && !closed)
      ensures !closed ==> CanSend(st, snd, o, iss) && !Handshake(st)
      ensures closed ==> old(st) == LastAck && o.una == |o.stream| + 1
      ensures Look() == Turned(old(Look()), if old(snd).finAcked then AfterOurs(old(st)) else old(st), old(snd), now)
    {
      closed := false;
      if snd.finAcked {
        if st == FinWait1 {
          st := FinWait2;
        } else if st == Closing {
          EnterTimeWait(now);
        } else if st == LastAck {
          closed, st := true, Closed;
          snd := snd.(retxAt := 0);
        }
      }
    }

    /** The acknowledgement of a segment outside the window. */
    method OutsideAck(g: Segment, now: nat, ghost w: Peer, ghost a: int)
      returns (segs: seq<Segment>, ghost ps: seq<Packet>)
      requires Live(st) && !Handshake(st) && SndInv(snd, o, iss) && RecInv(snd, o, iss) && Armed(snd, o) && mss > 0
      requires PhaseOf(st, snd) && o.una >= 0 && RcvOk(st, rcv, q, irs, w) && g.hasAck
      requires g.ack == At(iss, a) && 0 <= a && Near(a, o.una) && Near(a, o.max)
      modifies this`st, this`snd, this`o, this`twUntil
      ensures (Live(st) ==> SndOk(st, snd, o, iss) && TimerOk(st, snd)) && st != Listen && RcvOk(st, rcv, q, irs, w)
      ensures Me() == old(Me()) && (o.una == old(o.una) || o.una == a)
      ensures Carry(segs, ps) && PacketsOk(ps, Me(), irs, q.pos)
      ensures exists v1, p1, p2 :: OutsideVia(old(Look()), g, a, now, Look(), ps, v1, p1, p2)
    {
      ghost var v := Look();
      var closed;
      closed, segs, ps := Acknowledge(g, now, a);
      ghost var v1, p0 := Look(), ps;
      if closed {
        assert ps == p0 + [];
        assert OutsideVia(v, g, a, now, Look(), ps, v1, p0, []);
        return;
      }
      ghost var p1;
      segs, ps, p1 := EmitMore(SegLen(g) != 0, now, segs, ps, q.pos);
      assert OutsideVia(v, g, a, now, Look(), ps, v1, p0, p1);
    }

    /** A segment outside the window: only its acknowledgement counts. */
    method InputOutside(g: Segment, now: nat, ghost w: Peer, ghost off: int, ghost a: int)
      returns (segs: seq<Segment>, ghost ps: seq<Packet>)
      requires Valid(w) && Live(st) && st != SynSent && Timely(g, w, off, a)
      modifies this
      ensures Valid(w) && Me() == old(Me()) && q == old(q) && err == old(err) && irs == old(irs)
      ensures o.una == old(o.una) || (g.hasAck && o.una == a)
      ensures Carry(segs, ps) && PacketsOk(ps, Me(), irs, q.pos)
      ensures exists v1, p1, p2 :: OutsideVia(old(Look()), g, a, now, Look(), ps, v1, p1, p2)
    {
      ghost var v := Look();
      OpenSnd(st, snd, o, iss);
      if g.hasAck && st != SynRcvd {
        segs, ps := OutsideAck(g, now, w, a);
      } else {
        segs, ps := Emit(SegLen(g) != 0, now);
        assert ps == [] + ps;
        assert OutsideVia(v, g, a, now, Look(), ps, v, [], ps);
      }
    }

    /** The text and the FIN of an acceptable segment. */
    method InputText(g: Segment, now: nat, ghost w: Peer, ghost off: int) returns (needAck: bool)
      requires Live(st) && !Handshake(st) && CanSend(st, snd, o, iss) && RcvOk(st, rcv, q, irs, w) && q.pos >= 0
      requires SegOk(g, off, w.isn, w.stream, w.fin) && !g.syn && Fresh(off, q.pos) && off <= q.pos + 0x1_0000
      modifies this`st, this`snd, this`rcv, this`q, this`twUntil
      ensures CanSend(st, snd, o, iss) && Live(st) && st != SynSent && RcvOk(st, rcv, q, irs, w)
      ensures q.taken == old(q.taken) && q.pos >= old(q.pos) && snd == old(snd).(retxAt := snd.retxAt)
      ensures TextTaken(old(Look()), g, off, now, Look(), needAck)
    {
      var had := rcv.finReceived;
      assert RcvKey(0, rcv, q, w);
      OpenSend(st, snd, o, iss);
      rcv, needAck, q := TakeSegment(rcv, Accepts(st), g, q, w, off);
      if rcv.finReceived && !had {
        if st == Established {
          st := CloseWait;
        } else if st == FinWait1 && !snd.finAcked {
          st := Closing;
        } else {
          EnterTimeWait(now);
        }
      }
    }

    /** An acceptable segment with an acknowledgement. */
    method InputInside(g: Segment, now: nat, ghost w: Peer, ghost off: int, ghost a: int)
      returns (segs: seq<Segment>, ghost ps: seq<Packet>)
      requires Live(st) && !Handshake(st) && SndInv(snd, o, iss) && RecInv(snd, o, iss) && Armed(snd, o) && mss > 0
      requires (o.una >= 0 || (a == 0 <= o.max)) && PhaseOf(st, snd)
      requires RcvOk(st, rcv, q, irs, w) && q.pos >= 0 && Timely(g, w, off, a) && g.hasAck && !g.syn
      requires off <= q.pos + 0x1_0000
      modifies this
      ensures mss == old(mss) && (Live(st) ==> SndOk(st, snd, o, iss) && TimerOk(st, snd)) && st != Listen
      ensures RcvOk(st, rcv, q, irs, w)
      ensures Me() == old(Me()) && q.taken == old(q.taken) && q.pos >= old(q.pos) && irs == old(irs) && err == old(err)
      ensures o.una == old(o.una) || o.una == a
      ensures Carry(segs, ps) && PacketsOk(ps, Me(), irs, q.pos)
      ensures exists v1, v2, p1, p2, needAck ::
                InsideVia(old(Look()), g, off, a, now, Look(), ps, v1, v2, p1, p2, needAck)
    {
      ghost var v := Look();
      var closed;
      closed, segs, ps := Acknowledge(g, now, a);
      ghost var v1, p0 := Look(), ps;
      if closed {
        ViaClosed(v, g, off, a, now, v1, p0);
        return;
      }
      ghost var v2, p1, needAck;
      segs, ps, v2, p1, needAck := Proceed(g, now, w, off, segs, ps);
      ViaText(v, g, off, a, now, Look(), ps, v1, v2, p0, p1, needAck);
    }

    /** What an acceptable segment brings beside its acknowledgement. */
    method Proceed(g: Segment, now: nat, ghost w: Peer, ghost off: int, segs0: seq<Segment>, ghost ps0: seq<Packet>)
      returns (segs: seq<Segment>, ghost ps: seq<Packet>, ghost v: View, ghost more: seq<Packet>, ghost needAck: bool)
      requires Live(st) && !Handshake(st) && CanSend(st, snd, o, iss) && mss > 0
      requires RcvOk(st, rcv, q, irs, w) && q.pos >= 0
      requires SegOk(g, off, w.isn, w.stream, w.fin) && !g.syn && Fresh(off, q.pos) && off <= q.pos + 0x1_0000
      requires Carry(segs0, ps0) && PacketsOk(ps0, Me(), irs, q.pos)
      modifies this`st, this`snd, this`o, this`rcv, this`q, this`twUntil
      ensures SndOk(st, snd, o, iss) && TimerOk(st, snd) && Live(st) && RcvOk(st, rcv, q, irs, w)
      ensures Me() == old(Me()) && q.taken == old(q.taken) && q.pos >= old(q.pos) && o.una == old(o.una)
      ensures Carry(segs, ps) && PacketsOk(ps, Me(), irs, q.pos) && ps == ps0 + more
      ensures TextTaken(old(Look()), g, off, now, v, needAck) && Emitted(v, needAck, now, Look(), more)
    {
      ghost var pos := q.pos;
      var ack := InputText(g, now, w, off);
      v, needAck := Look(), ack;
      segs, ps, more := EmitMore(ack, now, segs0, ps0, pos);
    }

    /** A segment for a live connection past the SYN. */
    method InputLive(g: Segment, now: nat, ghost w: Peer, ghost off: int, ghost a: int)
      returns (segs: seq<Segment>, ghost ps: seq<Packet>)
      requires Valid(w) && Live(st) && st != SynSent && Timely(g, w, off, a)
      modifies this
      ensures Valid(w) && Me() == old(Me()) && q.taken == old(q.taken) && q.pos >= old(q.pos) && irs == old(irs)
      ensures o.una == old(o.una) || (g.hasAck && o.una == a)
      ensures Carry(segs, ps) && PacketsOk(ps, Me(), irs, q.pos)
      ensures Arrived(old(Look()), g, off, a, now, Look(), ps)
    {
      if !InWindow(rcv, g) {
        segs, ps := InputOutside(g, now, w, off, a);
        return;
      }
      segs, ps := [], [];
      if g.syn {
        Fail(CONN_RESET);
        return;
      }
      if !g.hasAck {
        return;
      }
      segs, ps := InputFit(g, now, w, off, a);
    }

    /** ... inside the window, with an acknowledgement and no SYN. */
    method InputFit(g: Segment, now: nat, ghost w: Peer, ghost off: int, ghost a: int)
      returns (segs: seq<Segment>, ghost ps: seq<Packet>)
      requires Valid(w) && Live(st) && st != SynSent && Timely(g, w, off, a) && InWindow(rcv, g) && !g.syn && g.hasAck
      modifies this
      ensures Valid(w) && Me() == old(Me()) && q.taken == old(q.taken) && q.pos >= old(q.pos) && irs == old(irs)
      ensures o.una == old(o.una) || o.una == a
      ensures Carry(segs, ps) && PacketsOk(ps, Me(), irs, q.pos)
      ensures Arrived(old(Look()), g, off, a, now, Look(), ps)
    {
      segs, ps := [], [];
      ghost var v := Look();
      WindowTest(rcv, g, w.isn, off, q.pos);
      SynNumber(iss, st, snd, o, g, a);
      if st == SynRcvd {
        if g.ack != Plus(iss, 1) {
          return;
        }
        st := Established;
      }
      assert Look() == Opened(v);
      segs, ps := InputInside(g, now, w, off, a);
    }

    /** A segment from the other end. */
    method Input(g: Segment, now: nat, ghost w: Peer, ghost off: int, ghost a: int)
      returns (segs: seq<Segment>, ghost ps: seq<Packet>)
      requires Valid(w) && Timely(g, w, off, a)
      modifies this
      ensures Valid(w) && Me() == old(Me()) && q.taken == old(q.taken) && q.pos >= old(q.pos)
      ensures old(q.pos) >= 0 ==> irs == old(irs)
      ensures o.una == old(o.una) || (g.hasAck && o.una == a)
      ensures Carry(segs, ps) && PacketsOk(ps, Me(), irs, q.pos)
      ensures Handled(iss, old(Look()), g, off, a, now, Look(), ps) && Effect(old(Look()), g, off, a, Look(), ps)
    {
      ghost var v := Look();
      segs, ps := [], [];
      if st == Listen {
        segs, ps := InputListen(g, now, w, off);
      } else if st == SynSent {
        segs, ps := InputSynSent(g, now, w, off, a);
      } else if st != Closed {
        segs, ps := InputLive(g, now, w, off, a);
      }
      HandledMeans(iss, v, g, off, a, now, Look(), ps);
    }

    /** A reset, from anyone. */
    method Reset(seqNo: nat, hasAck: bool, ack: nat, ghost w: Peer)
      requires Valid(w)
      modifies this
      ensures Valid(w) && Me() == old(Me()) && o == old(o) && q == old(q) && rcv == old(rcv) && irs == old(irs)
      ensures Look() == if ResetCounts(old(Look()), iss, seqNo, hasAck, ack) then Broken(old(Look())) else old(Look())
    {
      if st == SynSent {
        if hasAck && ack == Plus(iss, 1) {
          Fail(CONN_REFUSED);
        }
      } else if Live(st) && (InWindow(rcv, Segment(seqNo, ack, false, false, hasAck, 0, [])) || seqNo == rcv.nxt) {
        if st == SynRcvd {
          Fail(CONN_REFUSED);
        } else if (st == TimeWait || st == LastAck || st == Closing) {
          st := Closed;
        } else {
          Fail(CONN_RESET);
        }
      }
    }

    /** What the sender makes of it when the retransmission timer fires. */
    method Fire(now: nat) returns (failed: bool, segs: seq<Segment>, ghost ps: seq<Packet>)
      requires (Live(st) ==> SndOk(st, snd, o, iss)) && mss > 0 && st != Listen && snd.retxAt != 0
      requires st !in {SynSent, Closed} ==> q.pos >= 0 && rcv.nxt == At(irs, q.pos)
      modifies this`st, this`snd, this`o
      ensures if failed then st == Closed && snd.retxAt == 0
              else (Live(old(st)) ==> SndOk(st, snd, o, iss) && TimerOk(st, snd)) && Kin(old(st), st)
      ensures (failed <==> GivesUp(old(st), old(snd))) && TimedOut(old(Look()), now, Look(), ps)
      ensures Me() == old(Me()) && o.una == old(o.una) && Carry(segs, ps) && PacketsOk(ps, Me(), irs, q.pos)
    {
      var h := Hdr();
      ghost var offs;
      failed, st, snd, segs, o, offs := Timeout(st, snd, h, now, o);
      ps := PacketsFrom(segs, offs, h, Me(), irs, q.pos);
    }

    /** ... and what that leaves of the connection. */
    method Resend(now: nat, ghost w: Peer) returns (failed: bool, segs: seq<Segment>, ghost ps: seq<Packet>)
      requires Valid(w) && st != Listen && snd.retxAt != 0
      modifies this`st, this`snd, this`o
      ensures Valid(w) && (failed ==> st == Closed && snd.retxAt == 0)
      ensures (failed <==> GivesUp(old(st), old(snd))) && TimedOut(old(Look()), now, Look(), ps)
      ensures Me() == old(Me()) && o.una == old(o.una) && Carry(segs, ps) && PacketsOk(ps, Me(), irs, q.pos)
    {
      failed, segs, ps := Fire(now);
    }

    /** The retransmission timer has fired. */
    method Retransmit(now: nat, linkUp: bool, ghost w: Peer) returns (segs: seq<Segment>, ghost ps: seq<Packet>)
      requires Valid(w) && st != Listen && snd.retxAt != 0
      modifies this`st, this`snd, this`o, this`err
      ensures Valid(w) && Me() == old(Me()) && o.una == old(o.una)
      ensures Carry(segs, ps) && PacketsOk(ps, Me(), irs, q.pos)
      ensures TimedOut(old(Look()), now, Look().(err := old(err)), ps)
      ensures err == if GivesUp(old(st), old(snd)) && old(err) == 0 then TimeoutCode(old(st), linkUp) else old(err)
    {
      var code := if !linkUp then LINK_DOWN else if st == SynSent then CONN_TIMEOUT else UNACKED_TIMEOUT;
      var failed;
      failed, segs, ps := Resend(now, w);
      ghost var v := Look();
      if failed {
        Fail(code);
      }
      assert Look().(err := v.err) == v;
    }

    /** The end of TIME_WAIT and the retransmission timer. */
    method Tick(now: nat, linkUp: bool, ghost w: Peer) returns (segs: seq<Segment>, ghost ps: seq<Packet>)
      requires Valid(w)
      modifies this
      ensures Valid(w) && Me() == old(Me()) && o.una == old(o.una) && q == old(q) && rcv == old(rcv) && irs == old(irs)
      ensures Carry(segs, ps) && PacketsOk(ps, Me(), irs, q.pos)
      ensures Ticked(old(Look()), TimeoutCode(old(st), linkUp), now, Look(), ps)
    {
      segs, ps := [], [];
      if st == TimeWait && now >= twUntil {
        st := Closed;
      }
      if st != Listen && snd.retxAt != 0 && now >= snd.retxAt {
        segs, ps := Retransmit(now, linkUp, w);
      }
    }

    // ---- user calls ----

    predicate CanWrite()
      reads this
    {
      (st == Established || st == CloseWait) && !snd.finQueued
    }

    /** One round of a write: as much of the data as fits goes to the end of the stream. */
    method Write(data: Bytes, now: nat, ghost w: Peer)
      returns (code: nat, n: nat, segs: seq<Segment>, ghost ps: seq<Packet>)
      requires Valid(w)
      modifies this
      ensures Valid(w) && q == old(q) && rcv == old(rcv) && irs == old(irs) && o.una == old(o.una) && err == old(err)
      ensures n <= |data| && Me() == old(Me()).(stream := old(Me()).stream + data[..n]) && (n > 0 ==> !Me().fin)
      ensures code == (if data == [] || old(err != 0) then old(err) else if !old(CanWrite()) then PEER_CLOSED
                       else if n > 0 then 0 else NET_TIMEOUT)
      ensures data != [] && old(err == 0 && CanWrite()) ==>
                n == if |data| <= SNDBUF - |old(snd).buf| then |data| else SNDBUF - |old(snd).buf|
      ensures Carry(segs, ps) && PacketsOk(ps, Me(), irs, q.pos)
      ensures Written(old(Look()), data[..n], now, Look(), ps)
    {
      code, n, segs, ps := err, 0, [], [];
      if data == [] || err != 0 {
        return;
      }
      if !CanWrite() {
        code := PEER_CLOSED;
        return;
      }
      OpenSnd(st, snd, o, iss);
      n := Min(|data|, SNDBUF - |snd.buf|);
      if n == 0 {
        code := NET_TIMEOUT;
        return;
      }
      EnqueueOk(st, snd, o, iss, data[..n]);
      snd, o := snd.(buf := snd.buf + data[..n]), o.(stream := o.stream + data[..n]);
      segs, ps := Emit(false, now);
    }

    /** Ends our stream. */
    method Shutdown(now: nat, ghost w: Peer) returns (segs: seq<Segment>, ghost ps: seq<Packet>)
      requires Valid(w)
      modifies this
      ensures Valid(w) && q == old(q) && rcv == old(rcv) && irs == old(irs) && o.una == old(o.una) && err == old(err)
      ensures Me() == old(Me()).(fin := old(snd.finQueued || CanWrite()))
      ensures Carry(segs, ps) && PacketsOk(ps, Me(), irs, q.pos)
      ensures if old(CanWrite()) then Emitted(old(Look()).(snd := old(snd).(finQueued := true)), false, now, Look(), ps)
              else Look() == old(Look()) && ps == []
    {
      segs, ps := [], [];
      if CanWrite() {
        OpenSnd(st, snd, o, iss);
        EnqueueOk(st, snd, o, iss, []);
        snd := snd.(finQueued := true);
        segs, ps := Emit(false, now);
      }
    }

    /** Takes n bytes from the buffer. */
    method Take(n: nat, now: nat, ghost w: Peer) returns (data: Bytes, segs: seq<Segment>, ghost ps: seq<Packet>)
      requires Valid(w) && rcv.rbuf != [] && n <= |rcv.rbuf|
      modifies this`rcv, this`q, this`st, this`snd, this`o
      ensures Valid(w) && Me() == old(Me()) && o.una == old(o.una)
      ensures data == old(rcv).rbuf[..n] && rcv == old(rcv).(rbuf := old(rcv).rbuf[n..])
      ensures q == old(q).(taken := old(q).taken + data)
      ensures Carry(segs, ps) && PacketsOk(ps, Me(), irs, q.pos) && Fetched(old(Look()), n, now, Look(), ps)
    {
      segs, ps := [], [];
      var update := Window(rcv) < mss;
      TakeOk(rcv, q, w, n);
      data := rcv.rbuf[..n];
      rcv, q := rcv.(rbuf := rcv.rbuf[n..]), q.(taken := q.taken + data);
      if update && st != Closed {
        SteadyLoaded(st, snd, o, iss);
        segs, ps := Emit(true, now);
      }
    }

    /** One round of a read: received data in order, 0 at the end of the peer's stream, or an error. */
    method Read(cap: nat, now: nat, ghost w: Peer)
      returns (n: int, data: Bytes, segs: seq<Segment>, ghost ps: seq<Packet>)
      requires Valid(w)
      modifies this
      ensures Valid(w) && Me() == old(Me()) && q == old(q).(taken := old(q).taken + data) && irs == old(irs)
      ensures err == old(err)
      ensures o.una == old(o.una) && q.taken <= w.stream && old(rcv).rbuf == data + rcv.rbuf
      ensures old(rcv).rbuf != [] ==> n == |data| == Min(|old(rcv).rbuf|, cap)
      ensures old(rcv).rbuf == [] ==> n <= 0 && data == [] && (n == 0 <==> rcv.finReceived && err == 0)
      ensures n < 0 ==> n == if err != 0 then -(err as int) else if st == Closed then -CONN_RESET else -NET_TIMEOUT
      ensures n == 0 && cap > 0 ==> w.fin && q.taken == w.stream
      ensures Carry(segs, ps) && PacketsOk(ps, Me(), irs, q.pos)
      ensures Fetched(old(Look()), |data|, now, Look(), ps)
    {
      segs, ps, data := [], [], [];
      TakeOk(rcv, q, w, Min(|rcv.rbuf|, cap));
      if rcv.rbuf != [] {
        n := Min(|rcv.rbuf|, cap);
        data, segs, ps := Take(n, now, w);
      } else {
        n := if err != 0 then -(err as int)
             else if rcv.finReceived then 0 else if st == Closed then -CONN_RESET else -NET_TIMEOUT;
      }
    }
  }
}
