/** What one event does to an end of a connection, told in positions of the two streams: the steps of
    which the handling of a segment is made, and what follows for it as a whole. */
module TcpSteps {
  import opened Common
  import opened SeqNum
  import opened TcpSender
  import opened TcpReceiver

  const TIME_WAIT := 500
  const RTO_INIT := 1000

  const CONN_RESET := 8

  /** A segment on the wire with the positions its sequence and acknowledgement numbers stand for. */
  datatype Packet = Packet(seg: Segment, off: int, ack: int)

  /** All of an end. */
  datatype View = View(st: State, irs: nat, mss: nat, snd: Sender, rcv: Receiver, err: nat, tw: nat, o: Sent, q: Rcvd)

  const FREE := Slot(0, [])
  const EMPTY := Receiver(0, [], [FREE, FREE, FREE, FREE, FREE, FREE, FREE, FREE], false)

  function NewSender(iss: nat): Sender {
    Sender(iss, iss, iss, 0, [], Plus(iss, 1), false, false, false, false, 0, RTO_INIT, 0, 0, 0, 0, false)
  }

  const NEW_SENT := Sent([], -1, -1, -1, 0)

  /** The states in which text counts. */
  predicate Accepts(st: State) {
    st == Established || st == FinWait1 || st == FinWait2
  }

  ghost function Segs(ps: seq<Packet>): seq<Segment> {
    seq(|ps|, i requires 0 <= i < |ps| => ps[i].seg)
  }

  ghost function Offs(ps: seq<Packet>): seq<int> {
    seq(|ps|, i requires 0 <= i < |ps| => ps[i].off)
  }

  /** They acknowledge all that has been received, and offer the room there is. */
  ghost predicate Telling(ps: seq<Packet>, v: View) {
    forall p <- ps :: p.seg.wnd == Window(v.rcv) && p.seg.hasAck == (v.st != SynSent) && p.ack == v.q.pos
  }

  // ---- the steps ----

  /** What there is to send has been sent. */
  ghost predicate Emitted(v: View, ack: bool, now: nat, v': View, ps: seq<Packet>) {
    && v' == v.(st := v'.st, snd := v'.snd, o := v'.o) && Telling(ps, v)
    && Sends(v.st, v.snd, v.o, v.mss, ack, now, v'.st, v'.snd, v'.o, Segs(ps), Offs(ps))
  }

  /** Our FIN has been acknowledged. */
  function AfterOurs(st: State): State {
    if st == FinWait1 then FinWait2 else if st == Closing then TimeWait else if st == LastAck then Closed else st
  }

  /** Their FIN has come. */
  function AfterTheirs(st: State): State {
    if st == Established then CloseWait else if st == FinWait1 then Closing else if st == FinWait2 then TimeWait else st
  }

  /** The timers when the state changes: only the one of TIME_WAIT is left. */
  function Turned(v: View, st: State, s: Sender, now: nat): View {
    v.(st := st, snd := if st != v.st && (st == TimeWait || st == Closed) then s.(retxAt := 0) else s,
       tw := if st != v.st && st == TimeWait then now + TIME_WAIT else v.tw)
  }

  /** The acknowledgement of a segment has been taken in. */
  ghost predicate Acknowledged(v: View, g: Segment, a: int, now: nat, v': View, ps: seq<Packet>) {
    && Telling(ps, v)
    && exists s: Sender ::
         && AckDone(v.snd, v.o, a, g.wnd, SegLen(g) == 0, now, v.mss, s, v'.o, Segs(ps), Offs(ps))
         && v' == Turned(v, if s.finAcked then AfterOurs(v.st) else v.st, s, now).(o := v'.o)
  }

  /** The text and the FIN of a segment have been taken in. */
  ghost predicate TextTaken(v: View, g: Segment, off: int, now: nat, v': View, needAck: bool) {
    && Took(Accepts(v.st), v.rcv, v.q, g, off, v'.rcv, v'.q, needAck)
    && v' == Turned(v, if v'.rcv.finReceived && !v.rcv.finReceived then AfterTheirs(v.st) else v.st, v.snd, now)
             .(rcv := v'.rcv, q := v'.q)
  }

  // ---- a segment for a live connection ----

  /** Outside the window: only its acknowledgement counts, and a segment that is not empty is answered. */
  ghost predicate OutsideVia(v: View, g: Segment, a: int, now: nat, v': View, ps: seq<Packet>, v1: View,
                             p1: seq<Packet>, p2: seq<Packet>) {
    && ps == p1 + p2
    && (if g.hasAck && v.st != SynRcvd then Acknowledged(v, g, a, now, v1, p1) else v1 == v && p1 == [])
    && if v1.st == Closed then v' == v1 && p2 == [] else Emitted(v1, SegLen(g) != 0, now, v', p2)
  }

  /** Inside the window: its acknowledgement, its text and FIN, and then what there is to send. */
  ghost predicate InsideVia(v: View, g: Segment, off: int, a: int, now: nat, v': View, ps: seq<Packet>, v1: View,
                            v2: View, p1: seq<Packet>, p2: seq<Packet>, needAck: bool) {
    && ps == p1 + p2 && Acknowledged(v, g, a, now, v1, p1)
    && if v1.st == Closed then v' == v1 && p2 == []
       else TextTaken(v1, g, off, now, v2, needAck) && Emitted(v2, needAck, now, v', p2)
  }

  lemma ViaClosed(v: View, g: Segment, off: int, a: int, now: nat, v1: View, p1: seq<Packet>)
    requires Acknowledged(v, g, a, now, v1, p1) && v1.st == Closed
    ensures exists v1', v2, p1', p2, needAck :: InsideVia(v, g, off, a, now, v1, p1, v1', v2, p1', p2, needAck)
  {
    assert p1 == p1 + [];
    assert InsideVia(v, g, off, a, now, v1, p1, v1, v1, p1, [], false);
  }

  lemma ViaText(v: View, g: Segment, off: int, a: int, now: nat, v': View, ps: seq<Packet>, v1: View, v2: View,
                p1: seq<Packet>, p2: seq<Packet>, needAck: bool)
    requires ps == p1 + p2 && Acknowledged(v, g, a, now, v1, p1) && v1.st != Closed
    requires TextTaken(v1, g, off, now, v2, needAck) && Emitted(v2, needAck, now, v', p2)
    ensures exists v1', v2', p1', p2', need :: InsideVia(v, g, off, a, now, v', ps, v1', v2', p1', p2', need)
  {
    assert InsideVia(v, g, off, a, now, v', ps, v1, v2, p1, p2, needAck);
  }

  /** The SYN is acknowledged by the segment. */
  function Opened(v: View): View {
    if v.st == SynRcvd then v.(st := Established) else v
  }

  ghost predicate Arrived(v: View, g: Segment, off: int, a: int, now: nat, v': View, ps: seq<Packet>) {
    if !InWindow(v.rcv, g) then exists v1, p1, p2 :: OutsideVia(v, g, a, now, v', ps, v1, p1, p2)
    else if g.syn then
      v' == v.(st := Closed, err := if v.err != 0 then v.err else CONN_RESET, snd := v.snd.(retxAt := 0)) && ps == []
    else if !g.hasAck || (v.st == SynRcvd && a != 0) then v' == v && ps == []
    else exists v1, v2, p1, p2, needAck :: InsideVia(Opened(v), g, off, a, now, v', ps, v1, v2, p1, p2, needAck)
  }

  /** A SYN for a listener. */
  ghost predicate Listened(iss: nat, v: View, g: Segment, now: nat, v': View, ps: seq<Packet>) {
    if g.syn && !g.hasAck then
      && 64 <= v'.mss <= MSS
      && Emitted(v.(st := SynRcvd, irs := g.seqNo, mss := v'.mss, snd := NewSender(iss).(wnd := g.wnd), o := NEW_SENT,
                    rcv := EMPTY.(nxt := Plus(g.seqNo, 1)), q := v.q.(pos := 0)), false, now, v', ps)
    else v' == v && ps == []
  }

  /** Our SYN is acknowledged, and theirs is in. */
  function Greeted(v: View, g: Segment, mss: nat, rto: nat): View {
    v.(st := Established, irs := g.seqNo, mss := mss, o := v.o.(una := 0),
       snd := v.snd.(una := g.ack, wnd := g.wnd, retries := 0, retxAt := 0, rto := rto),
       rcv := EMPTY.(nxt := Plus(g.seqNo, 1)), q := v.q.(pos := 0))
  }

  /** The answer to our SYN. */
  ghost predicate Answered(v: View, g: Segment, a: int, now: nat, v': View, ps: seq<Packet>) {
    if g.syn && g.hasAck && a == 0 then
      && 64 <= v'.mss <= MSS && (v'.snd.rto == v.snd.rto || RTO_MIN <= v'.snd.rto <= RTO_MAX)
      && Emitted(Greeted(v, g, v'.mss, v'.snd.rto), true, now, v', ps)
    else v' == v && ps == []
  }

  ghost predicate HandledKey(k: nat, v: View, v': View, g: Segment) {
    true
  }

  /** All that a segment does, in every state (behind a key). */
  ghost predicate Handled(iss: nat, v: View, g: Segment, off: int, a: int, now: nat, v': View, ps: seq<Packet>) {
    forall k {:trigger HandledKey(k, v, v', g)} :: HandledKey(k, v, v', g) ==>
      if v.st == Closed then v' == v && ps == []
      else if v.st == Listen then Listened(iss, v, g, now, v', ps)
      else if v.st == SynSent then Answered(v, g, a, now, v', ps)
      else Arrived(v, g, off, a, now, v', ps)
  }

  // ---- what follows for a segment as a whole ----

  lemma EmittedMeans(v: View, ack: bool, now: nat, v': View, ps: seq<Packet>)
    requires Emitted(v, ack, now, v', ps)
    ensures v'.o.una == v.o.una && v'.o.stream == v.o.stream && v'.snd.wnd == v.snd.wnd && v'.q == v.q
    ensures v'.rcv == v.rcv && v'.err == v.err && v'.mss == v.mss
    ensures ack && !Handshake(v.st) ==> ps != []
    ensures v'.st == v.st || v'.st == FinWait1 || v'.st == LastAck
    ensures ps != [] && !Handshake(v.st) && v.o.una <= v.o.nxt ==> ps[|ps| - 1].off >= v.o.una
  {
    assert SendsKey(0, v.snd, v'.snd, Segs(ps), Offs(ps));
    if ps != [] && !Handshake(v.st) && v.o.una <= v.o.nxt {
      LastNotOld(v.st, v.snd, v.o, v.mss, ack, now, v'.st, v'.snd, v'.o, Segs(ps), Offs(ps));
      assert Offs(ps)[|ps| - 1] == ps[|ps| - 1].off;
    }
  }

  /** Nothing is sent at a position before nxt. */
  lemma LastNotOld(st: State, s: Sender, o: Sent, mss: nat, ack: bool, now: nat, st': State, s': Sender, o': Sent,
                   segs: seq<Segment>, offs: seq<int>)
    requires Sends(st, s, o, mss, ack, now, st', s', o', segs, offs) && segs != [] && !Handshake(st)
    ensures |offs| == |segs| && offs[|segs| - 1] >= o.nxt
  {
    assert SendsKey(0, s, s', segs, offs);
    if Sending(st) {
      var f, n := Filled(o, s.wnd, mss), |segs| - 1;
      var k :| 0 <= k <= |segs| && Tiles(segs[..k], offs[..k], o.nxt, f.nxt, mss)
               && TailOk(s, f, ack, k == 0, segs[k..], offs[k..]);
      if k == |segs| {
        TilesEnd(segs[..k], offs[..k], o.nxt, f.nxt, mss, n);
      } else {
        assert offs[k..][n - k] == offs[n];
      }
    }
  }

  lemma AcknowledgedMeans(v: View, g: Segment, a: int, now: nat, v': View, ps: seq<Packet>)
    requires Acknowledged(v, g, a, now, v', ps)
    ensures v'.snd.wnd == g.wnd && v'.o.una == (if v.o.una < a <= v.o.max then a else v.o.una)
    ensures v'.q == v.q && v'.rcv == v.rcv && (v'.st == v.st || v'.st == AfterOurs(v.st))
    ensures v.o.una <= v.o.nxt ==> v'.o.una <= v'.o.nxt
  {
    var s: Sender :| AckDone(v.snd, v.o, a, g.wnd, SegLen(g) == 0, now, v.mss, s, v'.o, Segs(ps), Offs(ps))
      && v' == Turned(v, if s.finAcked then AfterOurs(v.st) else v.st, s, now).(o := v'.o);
    assert AckKey(0, v.snd, s, a);
  }

  /** The text of an acceptable segment reaches the buffer as far as there is room for it, and its FIN counts;
      beyond a gap it is kept. */
  ghost predicate TextEffect(r: Receiver, q: Rcvd, g: Segment, off: int, r': Receiver, q': Rcvd) {
    var end, limit := off + |g.data|, q.pos + RCVBUF - |r.rbuf|;
    if off <= q.pos then
      && (q'.pos >= end || q'.pos >= limit) && (g.fin && end <= limit ==> r'.finReceived)
    else q'.pos == q.pos && (g.data != [] ==> Stashed(r, r', g.seqNo, g.data))
  }

  lemma TextMeans(v: View, g: Segment, off: int, now: nat, v': View, needAck: bool)
    requires TextTaken(v, g, off, now, v', needAck)
    ensures v'.o == v.o && v'.snd.wnd == v.snd.wnd && (needAck <==> g.data != [] || (g.fin && v'.rcv.finReceived))
    ensures Accepts(v.st) ==> TextEffect(v.rcv, v.q, g, off, v'.rcv, v'.q)
    ensures v'.st == v.st || v'.st == AfterTheirs(v.st)
  {
    assert TookKey(0, v.rcv, v'.rcv);
  }

  /** An acknowledgement of something new is taken, inside the window and outside; the text of an acceptable
      segment is taken; what carries data, or the FIN, is answered with all that has been received; and only a SYN
      in the window, or the acknowledgement of the last FIN, ends the connection. */
  ghost predicate Effect(v: View, g: Segment, off: int, a: int, v': View, ps: seq<Packet>) {
    var fits := InWindow(v.rcv, g);
    Live(v.st) && v.st != SynSent ==>
      && (g.hasAck && v.st != SynRcvd && !(fits && g.syn) ==>
            v'.snd.wnd == g.wnd && v'.o.una == if v.o.una < a <= v.o.max then a else v.o.una)
      && (g.hasAck && fits && !g.syn && Accepts(Opened(v).st) && (v.st == SynRcvd ==> a == 0) ==>
            v'.st != SynRcvd && TextEffect(v.rcv, v.q, g, off, v'.rcv, v'.q))
      && (g.hasAck && !(fits && g.syn) && (v.st == SynRcvd ==> fits && a == 0)
          && (g.data != [] || (g.fin && (fits ==> v'.rcv.finReceived))) && v'.st != Closed ==>
            ps != [] && ps[|ps| - 1].seg.hasAck && ps[|ps| - 1].ack == v'.q.pos
            && ps[|ps| - 1].seg.wnd == Window(v'.rcv) && (v.o.una <= v.o.nxt ==> v'.o.una <= ps[|ps| - 1].off))
      && (v'.st == Closed ==> (fits && g.syn) || v.st == LastAck)
  }

  lemma HandledMeans(iss: nat, v: View, g: Segment, off: int, a: int, now: nat, v': View, ps: seq<Packet>)
    requires Handled(iss, v, g, off, a, now, v', ps)
    ensures Effect(v, g, off, a, v', ps)
  {
    if Live(v.st) && v.st != SynSent {
      assert HandledKey(0, v, v', g);
      if !InWindow(v.rcv, g) {
        var v1, p1, p2 :| OutsideVia(v, g, a, now, v', ps, v1, p1, p2);
        OutsideMeans(v, g, off, a, now, v', ps, v1, p1, p2);
      } else if !g.syn && g.hasAck && !(v.st == SynRcvd && a != 0) {
        var v1, v2, p1, p2, needAck :| InsideVia(Opened(v), g, off, a, now, v', ps, v1, v2, p1, p2, needAck);
        InsideMeans(v, g, off, a, now, v', ps, v1, v2, p1, p2, needAck);
      }
    }
  }

  lemma OutsideMeans(v: View, g: Segment, off: int, a: int, now: nat, v': View, ps: seq<Packet>, v1: View,
                     p1: seq<Packet>, p2: seq<Packet>)
    requires OutsideVia(v, g, a, now, v', ps, v1, p1, p2) && Live(v.st) && v.st != SynSent && !InWindow(v.rcv, g)
    ensures Effect(v, g, off, a, v', ps)
  {
    if g.hasAck && v.st != SynRcvd {
      AcknowledgedMeans(v, g, a, now, v1, p1);
    }
    if v1.st != Closed {
      EmittedMeans(v1, SegLen(g) != 0, now, v', p2);
      assert p2 != [] ==> ps[|ps| - 1] == p2[|p2| - 1] && p2[|p2| - 1] in p2;
    }
  }

  lemma InsideMeans(v: View, g: Segment, off: int, a: int, now: nat, v': View, ps: seq<Packet>, v1: View,
                    v2: View, p1: seq<Packet>, p2: seq<Packet>, needAck: bool)
    requires InsideVia(Opened(v), g, off, a, now, v', ps, v1, v2, p1, p2, needAck) && Live(v.st) && v.st != SynSent
    requires InWindow(v.rcv, g) && !g.syn
    ensures Effect(v, g, off, a, v', ps)
  {
    AcknowledgedMeans(Opened(v), g, a, now, v1, p1);
    if v1.st != Closed {
      TextMeans(v1, g, off, now, v2, needAck);
      EmittedMeans(v2, needAck, now, v', p2);
      assert p2 != [] ==> ps[|ps| - 1] == p2[|p2| - 1] && p2[|p2| - 1] in p2;
    }
  }

  /** An empty segment that acknowledges all there is gets no answer, so that two ends do not acknowledge each
      other's acknowledgements for ever. */
  lemma NoAnswer(iss: nat, v: View, g: Segment, off: int, a: int, now: nat, v': View, ps: seq<Packet>)
    requires Handled(iss, v, g, off, a, now, v', ps) && Sending(v.st) && RecInv(v.snd, v.o, iss)
    requires SegLen(g) == 0 && g.hasAck && a == v.o.nxt == v.o.max == |v.o.stream| && !v.snd.finQueued
    requires v.o.una >= 0
    ensures ps == []
  {
    assert HandledKey(0, v, v', g);
    if !InWindow(v.rcv, g) {
      var v1, p1, p2 :| OutsideVia(v, g, a, now, v', ps, v1, p1, p2);
      NoAnswerOutside(iss, v, g, a, now, v', ps, v1, p1, p2);
    } else {
      var v1, v2, p1, p2, needAck :| InsideVia(v, g, off, a, now, v', ps, v1, v2, p1, p2, needAck);
      NoAnswerInside(iss, v, g, off, a, now, v', ps, v1, v2, p1, p2, needAck);
    }
  }

  lemma NoAnswerOutside(iss: nat, v: View, g: Segment, a: int, now: nat, v': View, ps: seq<Packet>, v1: View,
                        p1: seq<Packet>, p2: seq<Packet>)
    requires OutsideVia(v, g, a, now, v', ps, v1, p1, p2) && Sending(v.st) && RecInv(v.snd, v.o, iss)
    requires SegLen(g) == 0 && g.hasAck && a == v.o.nxt == v.o.max == |v.o.stream| && !v.snd.finQueued
    requires v.o.una >= 0
    ensures ps == []
  {
    AcknowledgedAll(v, g, a, now, v1, p1, iss);
    if v1.st != Closed {
      EmittedNone(v1, now, v', p2);
    }
  }

  lemma NoAnswerInside(iss: nat, v: View, g: Segment, off: int, a: int, now: nat, v': View, ps: seq<Packet>, v1: View,
                       v2: View, p1: seq<Packet>, p2: seq<Packet>, needAck: bool)
    requires InsideVia(v, g, off, a, now, v', ps, v1, v2, p1, p2, needAck) && Sending(v.st) && RecInv(v.snd, v.o, iss)
    requires SegLen(g) == 0 && g.hasAck && a == v.o.nxt == v.o.max == |v.o.stream| && !v.snd.finQueued
    requires v.o.una >= 0
    ensures ps == []
  {
    AcknowledgedAll(v, g, a, now, v1, p1, iss);
    if v1.st != Closed {
      NothingTaken(v1, g, off, now, v2, needAck);
      EmittedNone(v2, now, v', p2);
    }
  }

  lemma NothingTaken(v: View, g: Segment, off: int, now: nat, v': View, needAck: bool)
    requires TextTaken(v, g, off, now, v', needAck) && SegLen(g) == 0
    ensures !needAck && v'.o == v.o && v'.snd.finQueued == v.snd.finQueued
    ensures v'.st == v.st || v'.st == AfterTheirs(v.st)
  {
    assert TookKey(0, v.rcv, v'.rcv);
  }

  lemma AcknowledgedAll(v: View, g: Segment, a: int, now: nat, v': View, ps: seq<Packet>, iss: nat)
    requires Acknowledged(v, g, a, now, v', ps) && RecInv(v.snd, v.o, iss) && Sending(v.st)
    requires a == v.o.nxt == v.o.max == |v.o.stream| && v.o.una >= 0 && !v.snd.finQueued
    ensures ps == [] && v'.o.nxt == |v'.o.stream| && !v'.snd.finQueued && v'.o.una >= 0
    ensures v'.st == v.st || v'.st == AfterOurs(v.st)
  {
    var s: Sender :| AckDone(v.snd, v.o, a, g.wnd, SegLen(g) == 0, now, v.mss, s, v'.o, Segs(ps), Offs(ps))
      && v' == Turned(v, if s.finAcked then AfterOurs(v.st) else v.st, s, now).(o := v'.o);
    assert AckKey(0, v.snd, s, a);
    assert |Segs(ps)| == |ps|;
  }

  lemma EmittedNone(v: View, now: nat, v': View, ps: seq<Packet>)
    requires Emitted(v, false, now, v', ps) && v.o.nxt == |v.o.stream| && !v.snd.finQueued && !Handshake(v.st)
    ensures ps == []
  {
    assert SendsKey(0, v.snd, v'.snd, Segs(ps), Offs(ps));
    assert |Segs(ps)| == |ps|;
    if Sending(v.st) {
      var f, segs, offs := Filled(v.o, v.snd.wnd, v.mss), Segs(ps), Offs(ps);
      var k :| 0 <= k <= |segs| && Tiles(segs[..k], offs[..k], v.o.nxt, f.nxt, v.mss)
               && TailOk(v.snd, f, false, k == 0, segs[k..], offs[k..]);
      if k > 0 {
        assert Tile(segs[..k], offs[..k], f.nxt, v.mss, 0);
        TilesEnd(segs[..k], offs[..k], v.o.nxt, f.nxt, v.mss, 0);
      }
    }
  }

  // ---- a reset ----

  const CONN_REFUSED := 6

  /** A reset counts if it answers our SYN, or has a number in the window or the one that is expected next. */
  predicate ResetCounts(v: View, iss: nat, seqNo: nat, hasAck: bool, ack: nat) {
    if v.st == SynSent then hasAck && ack == Plus(iss, 1)
    else Live(v.st) && (seqNo == v.rcv.nxt || (Window(v.rcv) > 0 && Inside(v.rcv.nxt, Window(v.rcv), seqNo)))
  }

  /** The connection is closed, with an error unless both streams have been ended. */
  function Broken(v: View): View {
    if v.st == TimeWait || v.st == LastAck || v.st == Closing then v.(st := Closed)
    else
      var code := if Handshake(v.st) then CONN_REFUSED else CONN_RESET;
      v.(st := Closed, err := if v.err != 0 then v.err else code, snd := v.snd.(retxAt := 0))
  }

  // ---- timers ----

  /** The retransmission timer has fired. */
  ghost predicate TimedOut(v: View, now: nat, v': View, ps: seq<Packet>) {
    && v' == v.(st := v'.st, snd := v'.snd, o := v'.o) && Telling(ps, v)
    && TimeoutDone(v.st, v.snd, v.o, v.mss, now, v'.st, v'.snd, v'.o, Segs(ps), Offs(ps))
  }

  /** TIME_WAIT ends, and the retransmission timer fires, when the time has come. */
  ghost predicate Ticked(v: View, code: nat, now: nat, v': View, ps: seq<Packet>) {
    var v1 := if v.st == TimeWait && now >= v.tw then v.(st := Closed) else v;
    if v1.st != Listen && v1.snd.retxAt != 0 && now >= v1.snd.retxAt then
      && TimedOut(v1, now, v'.(err := v1.err), ps)
      && v'.err == if GivesUp(v1.st, v1.snd) && v1.err == 0 then code else v1.err
    else v' == v1 && ps == []
  }

  // ---- user calls ----

  /** The data has been put at the end of the stream. */
  ghost predicate Written(v: View, data: Bytes, now: nat, v': View, ps: seq<Packet>) {
    if data == [] then v' == v && ps == []
    else
      Emitted(v.(snd := v.snd.(buf := v.snd.buf + data), o := v.o.(stream := v.o.stream + data)), false, now, v', ps)
  }

  /** n bytes have been taken from the buffer; the peer is told if it had less room than a full segment. */
  ghost predicate Fetched(v: View, n: nat, now: nat, v': View, ps: seq<Packet>) {
    n <= |v.rcv.rbuf| &&
    var v1 := v.(rcv := v.rcv.(rbuf := v.rcv.rbuf[n..]), q := v.q.(taken := v.q.taken + v.rcv.rbuf[..n]));
    if v.rcv.rbuf != [] && Window(v.rcv) < v.mss && v.st != Closed then Emitted(v1, true, now, v', ps)
    else v' == v1 && ps == []
  }
}
