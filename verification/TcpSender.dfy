/** The sending half of a TCP connection: go-back-N with zero-window probes, fast retransmit and
    the FIN as the last position of the stream.  Positions: -1 is the SYN, 0 the first byte. */
module TcpSender {
  import opened Common
  import opened SeqNum

  const SNDBUF := 16384
  const CWND_SEGS := 10
  const RTO_MIN := 200
  const RTO_MAX := 8000
  const SYN_RETRIES := 5
  const DATA_RETRIES := 7

  type Bytes = seq<bv8>

  datatype State =
    | Closed | Listen | SynSent | SynRcvd | Established | FinWait1 | FinWait2 | Closing | TimeWait | CloseWait | LastAck

  datatype Segment = Segment(seqNo: nat, ack: nat, syn: bool, fin: bool, hasAck: bool, wnd: nat, data: Bytes)

  /** Before the other end's SYN and acknowledgement are in. */
  predicate Handshake(st: State) {
    st == SynSent || st == SynRcvd
  }

  /** The sender's fields of a connection; retxAt 0 means that the timer is off. */
  datatype Sender = Sender(una: nat, nxt: nat, max: nat, wnd: nat, buf: Bytes, bufSeq: nat,
                           finQueued: bool, finSent: bool, finAcked: bool, finSeqValid: bool, finSeq: nat,
                           rto: nat, retries: nat, retxAt: nat, dupacks: nat, recover: nat, inRecovery: bool)

  /** What every segment carries besides its own sequence number. */
  datatype Header = Header(iss: nat, mss: nat, ack: nat, wnd: nat)

  /** The stream written so far and the unbounded positions of the sender's pointers. */
  datatype Sent = Sent(stream: Bytes, una: int, nxt: int, max: int, rec: int)

  function At(isn: nat, off: int): nat {
    Wrap(isn + 1 + off)
  }

  predicate Sending(st: State) {
    st == Established || st == CloseWait || st == FinWait1 || st == Closing || st == LastAck
  }

  predicate Live(st: State) {
    st != Closed && st != Listen
  }

  /** How much of the stream has left the send buffer. */
  function Base(o: Sent): nat {
    if o.una < 0 then 0 else if o.una > |o.stream| then |o.stream| else o.una
  }

  /** The 32-bit fields stand for the positions, and the buffer is the unacknowledged stream. */
  ghost predicate SndInv(s: Sender, o: Sent, iss: nat) {
    && -1 <= o.una <= o.nxt <= o.max
    && s.una == At(iss, o.una) && s.nxt == At(iss, o.nxt) && s.max == At(iss, o.max)
    && s.buf == o.stream[Base(o)..] && |s.buf| <= SNDBUF && s.bufSeq == At(iss, Base(o))
    && (if s.finSeqValid then s.finQueued && o.max == |o.stream| + 1 && s.finSeq == At(iss, |o.stream|)
        else o.max <= |o.stream|)
    && (s.finSent ==> s.finSeqValid)
    && (s.finAcked <==> o.una == |o.stream| + 1)
    && s.rto > 0
  }

  /** A recovery ends with the acknowledgement of what was the newest position when it began. */
  ghost predicate RecInv(s: Sender, o: Sent, iss: nat) {
    s.inRecovery ==> o.una < o.rec <= o.max && s.recover == At(iss, o.rec)
  }

  /** Before the handshake is over nothing but the SYN has been sent. */
  ghost predicate Phase(st: State, s: Sender, o: Sent) {
    && (if Handshake(st) then o.una == -1 && o.max <= 0 && o.stream == [] && !s.finQueued && !s.inRecovery
        else o.una >= 0)
    && PhaseOf(st, s)
  }

  /** The state tells whether the FIN has been sent, and whether it has been acknowledged. */
  predicate PhaseOf(st: State, s: Sender) {
    (s.finSeqValid <==> !Handshake(st) && st != Established && st != CloseWait)
    && (s.finAcked <==> st == FinWait2 || st == TimeWait)
  }

  /** The timer runs exactly while something sent is unacknowledged. */
  ghost predicate Armed(s: Sender, o: Sent) {
    o.una != o.max <==> s.retxAt != 0
  }

  /** What holds of the sender in every live state. */
  ghost predicate Steady(st: State, s: Sender, o: Sent, iss: nat) {
    SndInv(s, o, iss) && RecInv(s, o, iss) && Phase(st, s, o) && Armed(s, o) && (Handshake(st) ==> o.nxt == 0)
  }

  ghost predicate SndKey(k: nat, st: State, s: Sender, o: Sent, iss: nat) {
    true
  }

  /** Steady behind a key, so that the verifier unfolds it only where OpenSnd asks for it. */
  ghost predicate SndOk(st: State, s: Sender, o: Sent, iss: nat) {
    forall k {:trigger SndKey(k, st, s, o, iss)} :: SndKey(k, st, s, o, iss) ==> Steady(st, s, o, iss)
  }

  lemma OpenSnd(st: State, s: Sender, o: Sent, iss: nat)
    requires SndOk(st, s, o, iss)
    ensures Steady(st, s, o, iss)
  {
    assert SndKey(0, st, s, o, iss);
  }

  /** The timer has just fired and everything unacknowledged is to be sent again. */
  ghost predicate Rewound(s: Sender, o: Sent) {
    o.nxt == o.una != o.max && s.retxAt == 0 && !s.finSent
  }

  /** Unacknowledged data or FIN: the retransmission timer runs. */
  predicate TimerOk(st: State, s: Sender) {
    Sending(st) && (s.buf != [] || (s.finQueued && !s.finAcked)) ==> s.retxAt != 0
  }

  /** A segment carries the bytes of the stream at its sequence number; a FIN ends the stream. */
  ghost predicate SegOk(g: Segment, off: int, iss: nat, stream: Bytes, finQueued: bool) {
    && g.seqNo == At(iss, off) && |g.data| < 0x1_0000
    && (if g.syn then off == -1 && g.data == [] && !g.fin else 0 <= off <= |stream| + 1)
    && (g.data != [] ==> off + |g.data| <= |stream| && g.data == stream[off..off + |g.data|])
    && (g.fin ==> finQueued && off + |g.data| == |stream|)
  }

  ghost predicate SegsOk(segs: seq<Segment>, offs: seq<int>, h: Header, stream: Bytes, finQueued: bool) {
    && |offs| == |segs|
    && forall i | 0 <= i < |segs| ::
         SegOk(segs[i], offs[i], h.iss, stream, finQueued) && segs[i].wnd == h.wnd
         && (segs[i].hasAck ==> segs[i].ack == h.ack)
  }

  function Arm(s: Sender, now: nat): Sender {
    if s.retxAt == 0 then s.(retxAt := now + s.rto) else s
  }

  /** A segment with `len` bytes from the send buffer at sequence number seqNo. */
  function MakeSegment(s: Sender, h: Header, seqNo: nat, syn: bool, fin: bool, hasAck: bool, len: nat): Segment
    requires len == 0 || Minus(seqNo, s.bufSeq) + len <= |s.buf|
  {
    Segment(seqNo, if hasAck then h.ack else 0, syn, fin, hasAck, h.wnd,
            if len == 0 then [] else s.buf[Minus(seqNo, s.bufSeq)..Minus(seqNo, s.bufSeq) + len])
  }

  /** Data at position off, which is at or after the base of the buffer. */
  lemma DataSegment(s: Sender, o: Sent, h: Header, off: int, len: nat)
    requires SndInv(s, o, h.iss) && Base(o) <= off && off + len <= |o.stream|
    ensures Minus(At(h.iss, off), s.bufSeq) == off - Base(o)
    ensures len == 0 || Minus(At(h.iss, off), s.bufSeq) + len <= |s.buf|
    ensures SegOk(MakeSegment(s, h, At(h.iss, off), false, false, true, len), off, h.iss, o.stream, s.finQueued)
  {
    Compare(h.iss + 1 + off, h.iss + 1 + Base(o));
    var k := off - Base(o);
    assert s.buf[k..k + len] == o.stream[off..off + len];
  }

  /** All pointers are close together, so 32-bit comparisons between them are sound. */
  lemma Pointers(s: Sender, o: Sent, iss: nat)
    requires SndInv(s, o, iss)
    ensures o.max - o.una <= SNDBUF + 2 && |o.stream| - Base(o) == |s.buf| && Base(o) - o.una <= 1
    ensures o.una - Base(o) <= 1
    ensures Plus(s.bufSeq, |s.buf|) == At(iss, |o.stream|)
    ensures Minus(s.nxt, s.una) == o.nxt - o.una
    ensures SeqLt(s.nxt, Plus(s.bufSeq, |s.buf|)) <==> o.nxt < |o.stream|
    ensures s.nxt == Plus(s.bufSeq, |s.buf|) <==> o.nxt == |o.stream|
    ensures o.nxt <= |o.stream| ==> Minus(Plus(s.bufSeq, |s.buf|), s.nxt) == |o.stream| - o.nxt
    ensures s.una == s.max <==> o.una == o.max
  {
    var z := iss + 1;
    PlusWrap(z + Base(o), |s.buf|);
    Compare(z + o.nxt, z + o.una);
    Compare(z + o.nxt, z + |o.stream|);
    Compare(z + |o.stream|, z + o.nxt);
    Compare(z + o.una, z + o.max);
  }

  /** Moving nxt forward by n raises max with it. */
  function Advance(s: Sender, n: nat): Sender {
    var s' := s.(nxt := Plus(s.nxt, n));
    if SeqLt(s'.max, s'.nxt) then s'.(max := s'.nxt) else s'
  }

  function Advanced(o: Sent, n: nat): Sent {
    o.(nxt := o.nxt + n, max := if o.max < o.nxt + n then o.nxt + n else o.max)
  }

  lemma AdvanceOk(s: Sender, o: Sent, iss: nat, n: nat)
    requires SndInv(s, o, iss) && o.nxt + n <= |o.stream|
    ensures SndInv(Advance(s, n), Advanced(o, n), iss)
  {
    Pointers(s, o, iss);
    PlusWrap(iss + 1 + o.nxt, n);
    Compare(iss + 1 + o.max, iss + 1 + (o.nxt + n));
  }

  // ---- what output may send ----

  /** Where the peer's window, or ours on the segments in flight, or the data ends. */
  function WindowEnd(o: Sent, wnd: nat, mss: nat): int {
    var end := o.una + Min(wnd, CWND_SEGS * mss);
    if |o.stream| < end then |o.stream| else end
  }

  /** Everything up to there has been sent. */
  function Filled(o: Sent, wnd: nat, mss: nat): Sent {
    var end := WindowEnd(o, wnd, mss);
    if o.nxt < end then Advanced(o, end - o.nxt) else o
  }

  /** Against a zero window with nothing in flight goes one byte. */
  predicate Probes(s: Sender, o: Sent) {
    0 <= o.nxt == o.una < |o.stream| && s.wnd == 0
  }

  /** Behind all the data goes the FIN. */
  predicate Ends(s: Sender, o: Sent) {
    o.nxt == |o.stream| && s.finQueued && !s.finSent
  }

  /** The positions after the probe or the FIN that follows the data. */
  function Lasted(s: Sender, o: Sent): Sent {
    if Probes(s, o) then Advanced(o, 1).(nxt := o.nxt) else if Ends(s, o) then Advanced(o, 1) else o
  }

  function Closes(st: State): State {
    if st == Established then FinWait1 else if st == CloseWait then LastAck else st
  }

  /** Data segments one after the other, from position `from` to position `to`, all full but the last. */
  ghost predicate Tiles(segs: seq<Segment>, offs: seq<int>, from: int, to: int, mss: nat) {
    && |segs| == |offs| && (if segs == [] then from == to else offs[0] == from)
    && forall i | 0 <= i < |segs| :: Tile(segs, offs, to, mss, i)
  }

  ghost predicate Tile(segs: seq<Segment>, offs: seq<int>, to: int, mss: nat, i: nat)
    requires i < |segs| == |offs|
  {
    && !segs[i].fin && 0 < |segs[i].data| <= mss
    && offs[i] + |segs[i].data| == (if i + 1 < |segs| then offs[i + 1] else to)
    && (i + 1 < |segs| ==> |segs[i].data| == mss)
  }

  /** Nothing that the peer would have to acknowledge. */
  predicate Bare(g: Segment) {
    g.data == [] && !g.fin && !g.syn
  }

  /** What comes after the data: the probe, the FIN, or nothing; an empty segment if one was asked for and
      there is no other. */
  ghost predicate TailOk(s: Sender, o: Sent, ack: bool, first: bool, segs: seq<Segment>, offs: seq<int>) {
    |segs| == |offs| &&
    if Probes(s, o) then |segs| == 1 && offs == [o.nxt] && |segs[0].data| == 1 && !segs[0].fin
    else if Ends(s, o) then |segs| == 1 && offs == [o.nxt] && segs[0].data == [] && segs[0].fin
    else if ack && first then |segs| == 1 && offs == [o.nxt] && Bare(segs[0])
    else segs == []
  }

  /** The timer is started by what needs an acknowledgement, unless it runs. */
  function Timed(s: Sender, segs: seq<Segment>, now: nat): nat {
    if s.retxAt == 0 && segs != [] && !Bare(segs[0]) then now + s.rto else s.retxAt
  }

  /** What is sent in a state that sends data, and what becomes of the state. */
  ghost predicate SendsData(st: State, s: Sender, o: Sent, mss: nat, ack: bool, st': State, s': Sender, o': Sent,
                            segs: seq<Segment>, offs: seq<int>) {
    var f := Filled(o, s.wnd, mss);
    && |segs| == |offs| && o' == Lasted(s, f) && s'.finSent == (s.finSent || Ends(s, f))
    && s'.finSeqValid == (s.finSeqValid || Ends(s, f)) && st' == (if Ends(s, f) then Closes(st) else st)
    && exists k | 0 <= k <= |segs| ::
         Tiles(segs[..k], offs[..k], o.nxt, f.nxt, mss) && TailOk(s, f, ack, k == 0, segs[k..], offs[k..])
  }

  /** Everything that output sends, and the state, the positions and the timer that it leaves. */
  ghost predicate SendsAll(st: State, s: Sender, o: Sent, mss: nat, ack: bool, now: nat, st': State, s': Sender,
                           o': Sent, segs: seq<Segment>, offs: seq<int>) {
    && |segs| == |offs| && OnlySent(s, s') && s'.retxAt == Timed(s, segs, now)
    && if Handshake(st) then
         && st' == st && s'.finSent == s.finSent
         && if o.nxt < 0 then o' == Advanced(o, 1) && |segs| == 1 && segs[0].syn && offs == [-1]
            else o' == o && segs == []
       else if Sending(st) then SendsData(st, s, o, mss, ack, st', s', o', segs, offs)
       else
         && st' == st && s' == s && o' == o
         && if ack then |segs| == 1 && Bare(segs[0]) && offs == [o.nxt] else segs == []
  }

  ghost predicate SendsKey(k: nat, s: Sender, s': Sender, segs: seq<Segment>, offs: seq<int>) {
    true
  }

  /** SendsAll behind a key. */
  ghost predicate Sends(st: State, s: Sender, o: Sent, mss: nat, ack: bool, now: nat, st': State, s': Sender,
                        o': Sent, segs: seq<Segment>, offs: seq<int>) {
    forall k {:trigger SendsKey(k, s, s', segs, offs)} :: SendsKey(k, s, s', segs, offs) ==>
      SendsAll(st, s, o, mss, ack, now, st', s', o', segs, offs)
  }

  // ---- output ----

  /** The SYN, once. */
  method OutputSyn(st: State, s: Sender, h: Header, now: nat, ghost o: Sent)
    returns (s': Sender, segs: seq<Segment>, ghost o': Sent, ghost offs: seq<int>)
    requires CanSend(st, s, o, h.iss) && Handshake(st)
    ensures SndOk(st, s', o', h.iss) && o'.max == 0
    ensures o'.una == o.una && o'.stream == o.stream && s'.(nxt := s.nxt, max := s.max, retxAt := s.retxAt) == s
    ensures SegsOk(segs, offs, h, o'.stream, s'.finQueued) && offs == (if o.nxt == 0 then [] else [-1])
    ensures forall g <- segs :: g.hasAck == (st == SynRcvd)
    ensures Sends(st, s, o, h.mss, false, now, st, s', o', segs, offs)
    ensures Sends(st, s, o, h.mss, true, now, st, s', o', segs, offs)
  {
    s', segs, o', offs := s, [], o, [];
    OpenSend(st, s, o, h.iss);
    Compare(h.iss + 1 + o.nxt, h.iss + 1);
    PlusWrap(h.iss, 1);
    if SeqLt(s.nxt, Plus(h.iss, 1)) {
      segs, offs := [MakeSegment(s, h, Wrap(h.iss), true, false, st == SynRcvd, 0)], [-1];
      s' := s.(nxt := Plus(h.iss, 1));
      Compare(h.iss + 1 + o.max, h.iss + 1);
      if SeqLt(s'.max, s'.nxt) {
        s' := s'.(max := s'.nxt);
      }
      s' := Arm(s', now);
      o' := Advanced(o, 1);
    }
  }

  lemma SegsAppend(segs: seq<Segment>, offs: seq<int>, h: Header, stream: Bytes, finQueued: bool, g: Segment, off: int)
    requires SegsOk(segs, offs, h, stream, finQueued) && SegOk(g, off, h.iss, stream, finQueued)
    requires g.wnd == h.wnd && (g.hasAck ==> g.ack == h.ack)
    ensures SegsOk(segs + [g], offs + [off], h, stream, finQueued)
  {
  }

  /** The segment is one for the peer, at this position, with the header's numbers. */
  ghost predicate Fit(g: Segment, off: int, h: Header, stream: Bytes, finQueued: bool) {
    SegOk(g, off, h.iss, stream, finQueued) && g.wnd == h.wnd && g.hasAck && g.ack == h.ack
  }

  /** One data segment of n bytes at nxt; the pointer moves unless it is a zero-window probe. */
  method SendData(s: Sender, h: Header, n: nat, probe: bool, now: nat, ghost o: Sent)
    returns (s': Sender, g: Segment, ghost o': Sent)
    requires SndInv(s, o, h.iss) && o.una >= 0 && 0 < n && o.nxt + n <= |o.stream| && (probe ==> n == 1)
    ensures SndInv(s', o', h.iss) && s'.retxAt != 0 && o'.una < o'.max
    ensures o' == if probe then Advanced(o, n).(nxt := o.nxt) else Advanced(o, n)
    ensures s'.(nxt := s.nxt, max := s.max, retxAt := s.retxAt) == s
    ensures s'.retxAt == if s.retxAt == 0 then now + s.rto else s.retxAt
    ensures Fit(g, o.nxt, h, o.stream, s.finQueued) && |g.data| == n && !g.fin && !g.syn
  {
    DataSegment(s, o, h, o.nxt, n);
    g := MakeSegment(s, h, s.nxt, false, false, true, n);
    AdvanceOk(s, o, h.iss, n);
    s' := Advance(s, n);
    o' := Advanced(o, n);
    if probe {
      s', o' := s'.(nxt := s.nxt), o'.(nxt := o.nxt);
    }
    s' := Arm(s', now);
  }

  function WithFin(s: Sender): Sender {
    Advance(s, 1).(finSent := true, finSeqValid := true, finSeq := s.nxt)
  }

  lemma FinOk(s: Sender, o: Sent, iss: nat)
    requires SndInv(s, o, iss) && s.finQueued && o.nxt == |o.stream|
    ensures SndInv(WithFin(s), Advanced(o, 1), iss)
  {
    Pointers(s, o, iss);
    PlusWrap(iss + 1 + o.nxt, 1);
    Compare(iss + 1 + o.max, iss + 1 + (o.nxt + 1));
  }

  /** The FIN at the end of the data. */
  method SendFin(s: Sender, h: Header, now: nat, ghost o: Sent) returns (s': Sender, g: Segment, ghost o': Sent)
    requires SndInv(s, o, h.iss) && o.una >= 0 && s.finQueued && o.nxt == |o.stream|
    ensures SndInv(s', o', h.iss) && o' == Advanced(o, 1) && o.una < o'.max && s'.finSent && s'.finSeqValid
    ensures OnlySent(s, s') && s'.retxAt != 0 && s'.retxAt == if s.retxAt == 0 then now + s.rto else s.retxAt
    ensures Fit(g, o.nxt, h, o.stream, s.finQueued) && g.data == [] && g.fin
  {
    g := MakeSegment(s, h, s.nxt, false, true, true, 0);
    FinOk(s, o, h.iss);
    s' := Arm(WithFin(s), now);
    o' := Advanced(o, 1);
  }

  /** Only the pointers, the timer and the FIN marks differ. */
  ghost predicate OnlySent(s: Sender, s': Sender) {
    s' == s.(nxt := s'.nxt, max := s'.max, retxAt := s'.retxAt, finSent := s'.finSent,
             finSeqValid := s'.finSeqValid, finSeq := s'.finSeq)
  }

  function Room(s: Sender, wnd: nat): nat {
    var inFlight := Minus(s.nxt, s.una);
    if wnd > inFlight then wnd - inFlight else 0
  }

  /** So far data has been sent from o.nxt on, in full segments unless the window ends there. */
  ghost predicate Partway(s: Sender, o: Sent, h: Header, now: nat, s': Sender, o': Sent, segs: seq<Segment>,
                          offs: seq<int>) {
    && SndInv(s', o', h.iss) && o.nxt <= o'.nxt && o' == Advanced(o, o'.nxt - o.nxt)
    && (Armed(s', o') || (s' == s && o' == o && Rewound(s, o)))
    && s' == s.(nxt := s'.nxt, max := s'.max, retxAt := Timed(s, segs, now))
    && (o'.nxt == o.nxt || o'.nxt <= WindowEnd(o, s.wnd, h.mss))
    && Tiles(segs, offs, o.nxt, o'.nxt, h.mss)
    && (o'.nxt == WindowEnd(o, s.wnd, h.mss) || forall g <- segs :: |g.data| == h.mss)
    && SegsOk(segs, offs, h, o.stream, s.finQueued) && forall g <- segs :: g.hasAck
  }

  /** Data segments as long as there is data and the window has room. */
  method SendWindow(s: Sender, h: Header, wnd: nat, now: nat, ghost o: Sent)
    returns (s': Sender, segs: seq<Segment>, ghost o': Sent, ghost offs: seq<int>)
    requires SndInv(s, o, h.iss) && o.una >= 0 && (Armed(s, o) || Rewound(s, o)) && h.mss > 0
    requires wnd == Min(s.wnd, CWND_SEGS * h.mss)
    ensures SndInv(s', o', h.iss) && o' == Filled(o, s.wnd, h.mss)
    ensures Armed(s', o') || (s' == s && o' == o && Rewound(s, o))
    ensures s' == s.(nxt := s'.nxt, max := s'.max, retxAt := Timed(s, segs, now))
    ensures Tiles(segs, offs, o.nxt, o'.nxt, h.mss)
    ensures SegsOk(segs, offs, h, o.stream, s.finQueued) && forall g <- segs :: g.hasAck
  {
    s', segs, o', offs := s, [], o, [];
    Pointers(s, o, h.iss);
    while SeqLt(s'.nxt, Plus(s'.bufSeq, |s'.buf|)) && Room(s', wnd) > 0
      invariant Partway(s, o, h, now, s', o', segs, offs)
      invariant SeqLt(s'.nxt, Plus(s'.bufSeq, |s'.buf|)) <==> o'.nxt < |o.stream|
      invariant Minus(s'.nxt, s'.una) == o'.nxt - o.una
      decreases |o.stream| - o'.nxt
    {
      s', segs, o', offs := SendNext(s', h, wnd, now, segs, o', offs, s, o);
      Pointers(s', o', h.iss);
    }
  }

  /** One more data segment: as much as there is, fits the window and fits a segment. */
  method SendNext(s: Sender, h: Header, wnd: nat, now: nat, segs: seq<Segment>, ghost o: Sent, ghost offs: seq<int>,
                  ghost s0: Sender, ghost o0: Sent)
    returns (s': Sender, segs': seq<Segment>, ghost o': Sent, ghost offs': seq<int>)
    requires Partway(s0, o0, h, now, s, o, segs, offs) && o0.una >= 0 && h.mss > 0
    requires wnd == Min(s0.wnd, CWND_SEGS * h.mss) && o.nxt < |o.stream| && Room(s, wnd) > 0
    ensures Partway(s0, o0, h, now, s', o', segs', offs') && o.nxt < o'.nxt
  {
    var n := Min(Min(Minus(Plus(s.bufSeq, |s.buf|), s.nxt), Room(s, wnd)), h.mss);
    NextLength(s, o, h, wnd, n);
    var g;
    s', g, o' := SendData(s, h, n, false, now, o);
    SegsAppend(segs, offs, h, o.stream, s.finQueued, g, o.nxt);
    segs', offs' := segs + [g], offs + [o.nxt];
    TilesMore(segs, offs, o0.nxt, o.nxt, h.mss, g);
  }

  /** A segment is full, or ends where the window or the data does. */
  lemma NextLength(s: Sender, o: Sent, h: Header, wnd: nat, n: nat)
    requires SndInv(s, o, h.iss) && h.mss > 0 && wnd == Min(s.wnd, CWND_SEGS * h.mss) && o.nxt < |o.stream|
    requires Room(s, wnd) > 0 && n == Min(Min(Minus(Plus(s.bufSeq, |s.buf|), s.nxt), Room(s, wnd)), h.mss)
    ensures 0 < n <= h.mss && o.nxt + n <= WindowEnd(o, s.wnd, h.mss) <= |o.stream|
    ensures n == h.mss || o.nxt + n == WindowEnd(o, s.wnd, h.mss)
    ensures o.nxt < WindowEnd(o, s.wnd, h.mss)
  {
    Pointers(s, o, h.iss);
  }

  /** One more segment behind full ones. */
  lemma TilesMore(segs: seq<Segment>, offs: seq<int>, from: int, to: int, mss: nat, g: Segment)
    requires Tiles(segs, offs, from, to, mss) && (forall f <- segs :: |f.data| == mss)
    requires 0 < |g.data| <= mss && !g.fin
    ensures Tiles(segs + [g], offs + [to], from, to + |g.data|, mss)
    ensures |g.data| == mss ==> forall f <- segs + [g] :: |f.data| == mss
    ensures !Bare((segs + [g])[0])
  {
    var segs', offs', end := segs + [g], offs + [to], to + |g.data|;
    forall i | 0 <= i < |segs'| ensures Tile(segs', offs', end, mss, i) {
      if i < |segs| {
        assert Tile(segs, offs, to, mss, i) && segs[i] in segs;
        assert offs'[i + 1] == if i + 1 < |segs| then offs[i + 1] else to;
      }
    }
    if segs != [] {
      assert Tile(segs, offs, to, mss, 0);
    }
  }

  /** What the probe or the FIN leaves (behind a key). */
  ghost predicate Ended(st: State, s: Sender, o: Sent, h: Header, now: nat, st': State, s': Sender, o': Sent,
                        segs: seq<Segment>, offs: seq<int>) {
    forall k {:trigger SendsKey(k, s, s', segs, offs)} :: SendsKey(k, s, s', segs, offs) ==>
      && SndInv(s', o', h.iss) && o' == Lasted(s, o) && s'.finSent == (s.finSent || Ends(s, o))
      && s'.finSeqValid == (s.finSeqValid || Ends(s, o))
      && Armed(s', o') && TimerOk(st', s') && OnlySent(s, s') && s'.retxAt == Timed(s, segs, now)
      && st' == (if Ends(s, o) then Closes(st) else st) && TailOk(s, o, false, true, segs, offs)
      && SegsOk(segs, offs, h, o.stream, s.finQueued) && (forall g <- segs :: g.hasAck)
      && (Rewound(s, o) ==> segs != [])
  }

  lemma EndedNot(st: State, s: Sender, o: Sent, h: Header, now: nat)
    requires SndInv(s, o, h.iss) && o.una >= 0 && (Armed(s, o) || Rewound(s, o)) && h.mss > 0
    requires o.nxt >= WindowEnd(o, s.wnd, h.mss) && !Probes(s, o) && !Ends(s, o)
    ensures Ended(st, s, o, h, now, st, s, o, [], [])
  {
    Pointers(s, o, h.iss);
    assert o.nxt == o.una < |o.stream| ==> s.wnd == 0;
  }

  lemma EndedProbe(st: State, s: Sender, o: Sent, h: Header, now: nat, s': Sender, g: Segment, o': Sent)
    requires Probes(s, o) && SndInv(s', o', h.iss) && o' == Lasted(s, o) && s'.retxAt != 0 && o'.una < o'.max
    requires s'.(nxt := s.nxt, max := s.max, retxAt := s.retxAt) == s
    requires s'.retxAt == if s.retxAt == 0 then now + s.rto else s.retxAt
    requires Fit(g, o.nxt, h, o.stream, s.finQueued) && |g.data| == 1 && !g.fin
    ensures Ended(st, s, o, h, now, st, s', o', [g], [o.nxt])
  {
  }

  lemma EndedFin(st: State, s: Sender, o: Sent, h: Header, now: nat, s': Sender, g: Segment, o': Sent)
    requires Ends(s, o) && SndInv(s', o', h.iss) && o' == Lasted(s, o) && s'.finSent && o.una < o'.max && s'.finSeqValid
    requires OnlySent(s, s') && s'.retxAt != 0 && s'.retxAt == if s.retxAt == 0 then now + s.rto else s.retxAt
    requires Fit(g, o.nxt, h, o.stream, s.finQueued) && g.data == [] && g.fin
    ensures Ended(st, s, o, h, now, Closes(st), s', o', [g], [o.nxt])
  {
  }

  lemma Branches(s: Sender, o: Sent, iss: nat)
    requires SndInv(s, o, iss) && o.una >= 0
    ensures SeqLt(s.nxt, Plus(s.bufSeq, |s.buf|)) <==> o.nxt < |o.stream|
    ensures Minus(s.nxt, s.una) == 0 <==> o.nxt == o.una
    ensures s.nxt == Plus(s.bufSeq, |s.buf|) <==> o.nxt == |o.stream|
  {
    Pointers(s, o, iss);
  }

  /** After the data: against a zero window with nothing in flight a one-byte probe, or behind all
      the data the FIN. */
  method SendLast(st: State, s: Sender, h: Header, now: nat, ghost o: Sent)
    returns (st': State, s': Sender, segs: seq<Segment>, ghost o': Sent, ghost offs: seq<int>)
    requires SndInv(s, o, h.iss) && o.una >= 0 && (Armed(s, o) || Rewound(s, o)) && h.mss > 0
    requires o.nxt >= WindowEnd(o, s.wnd, h.mss)
    ensures Ended(st, s, o, h, now, st', s', o', segs, offs)
  {
    st', s', segs, o', offs := st, s, [], o, [];
    Branches(s, o, h.iss);
    var g;
    if SeqLt(s.nxt, Plus(s.bufSeq, |s.buf|)) && s.wnd == 0 && Minus(s.nxt, s.una) == 0 {
      s', g, o' := SendData(s, h, 1, true, now, o);
      segs, offs := [g], [o.nxt];
      EndedProbe(st, s, o, h, now, s', g, o');
    } else if s.finQueued && !s.finSent && s.nxt == Plus(s.bufSeq, |s.buf|) {
      s', g, o' := SendFin(s, h, now, o);
      segs, offs := [g], [o.nxt];
      st' := if st == Established then FinWait1 else if st == CloseWait then LastAck else st;
      EndedFin(st, s, o, h, now, s', g, o');
    } else {
      EndedNot(st, s, o, h, now);
    }
  }

  /** What the data and the probe or the FIN leave (behind a key). */
  ghost predicate Pushed(st: State, s: Sender, o: Sent, h: Header, now: nat, st': State, s': Sender, o': Sent,
                         segs: seq<Segment>, offs: seq<int>) {
    forall k {:trigger SendsKey(k, s, s', segs, offs)} :: SendsKey(k, s, s', segs, offs) ==>
      && SndInv(s', o', h.iss) && Armed(s', o') && TimerOk(st', s') && OnlySent(s, s')
      && s'.retxAt == Timed(s, segs, now) && SendsData(st, s, o, h.mss, false, st', s', o', segs, offs)
      && SegsOk(segs, offs, h, o.stream, s.finQueued) && (forall g <- segs :: g.hasAck)
      && (Rewound(s, o) ==> segs != [])
  }

  /** Data as the window allows, then a probe or the FIN; after a timeout the first segment is the
      oldest unacknowledged one. */
  method OutputData(st: State, s: Sender, h: Header, now: nat, ghost o: Sent)
    returns (st': State, s': Sender, segs: seq<Segment>, ghost o': Sent, ghost offs: seq<int>)
    requires SndInv(s, o, h.iss) && o.una >= 0 && (Armed(s, o) || Rewound(s, o)) && h.mss > 0
    ensures Pushed(st, s, o, h, now, st', s', o', segs, offs)
  {
    s', segs, o', offs := SendWindow(s, h, Min(s.wnd, CWND_SEGS * h.mss), now, o);
    ghost var s1, f, data, offs1 := s', o', segs, offs;
    var last;
    ghost var offs2;
    st', s', last, o', offs2 := SendLast(st, s', h, now, o');
    segs, offs := segs + last, offs + offs2;
    PushedBoth(st, s, o, h, now, s1, f, data, offs1, st', s', o', last, offs2);
  }

  lemma PushedBoth(st: State, s: Sender, o: Sent, h: Header, now: nat, s1: Sender, f: Sent, data: seq<Segment>,
                   offs1: seq<int>, st': State, s': Sender, o': Sent, last: seq<Segment>, offs2: seq<int>)
    requires f == Filled(o, s.wnd, h.mss) && s1 == s.(nxt := s1.nxt, max := s1.max, retxAt := Timed(s, data, now))
    requires s.rto > 0 && (Armed(s1, f) || (s1 == s && f == o && Rewound(s, o)))
    requires Tiles(data, offs1, o.nxt, f.nxt, h.mss)
    requires SegsOk(data, offs1, h, o.stream, s.finQueued) && forall g <- data :: g.hasAck
    requires Ended(st, s1, f, h, now, st', s', o', last, offs2)
    ensures Pushed(st, s, o, h, now, st', s', o', data + last, offs1 + offs2)
  {
    assert SendsKey(0, s1, s', last, offs2);
    PushedData(st, s, o, h, s1, f, data, offs1, st', s', o', last, offs2);
    SegsJoin(data, offs1, h, o.stream, s.finQueued, last, offs2);
    TimedBoth(s, o, h, now, s1, f, data, offs1, last);
  }

  lemma TimedBoth(s: Sender, o: Sent, h: Header, now: nat, s1: Sender, f: Sent, data: seq<Segment>, offs1: seq<int>,
                  last: seq<Segment>)
    requires f == Filled(o, s.wnd, h.mss) && s.rto > 0 && s1.retxAt == Timed(s, data, now) && s1.rto == s.rto
    requires s1.finSent == s.finSent && Tiles(data, offs1, o.nxt, f.nxt, h.mss)
    ensures Timed(s1, last, now) == Timed(s, data + last, now)
    ensures Rewound(s, o) && data == [] ==> Rewound(s1, f)
  {
    if data != [] {
      assert Tile(data, offs1, f.nxt, h.mss, 0);
    } else {
      assert data + last == last && f == o;
    }
  }

  lemma SegsJoin(segs: seq<Segment>, offs: seq<int>, h: Header, stream: Bytes, finQueued: bool, segs': seq<Segment>,
                 offs': seq<int>)
    requires SegsOk(segs, offs, h, stream, finQueued) && SegsOk(segs', offs', h, stream, finQueued)
    ensures SegsOk(segs + segs', offs + offs', h, stream, finQueued)
  {
  }

  lemma PushedData(st: State, s: Sender, o: Sent, h: Header, s1: Sender, f: Sent, data: seq<Segment>,
                   offs1: seq<int>, st': State, s': Sender, o': Sent, last: seq<Segment>, offs2: seq<int>)
    requires f == Filled(o, s.wnd, h.mss) && s1 == s.(nxt := s1.nxt, max := s1.max, retxAt := s1.retxAt)
    requires Tiles(data, offs1, o.nxt, f.nxt, h.mss) && TailOk(s1, f, false, true, last, offs2)
    requires o' == Lasted(s1, f) && s'.finSent == (s1.finSent || Ends(s1, f))
    requires s'.finSeqValid == (s1.finSeqValid || Ends(s1, f))
    requires st' == (if Ends(s1, f) then Closes(st) else st)
    ensures SendsData(st, s, o, h.mss, false, st', s', o', data + last, offs1 + offs2)
  {
    var segs, offs, k := data + last, offs1 + offs2, |data|;
    assert segs[..k] == data && segs[k..] == last && offs[..k] == offs1 && offs[k..] == offs2;
    assert Probes(s1, f) <==> Probes(s, f);
    assert Ends(s1, f) <==> Ends(s, f);
    assert TailOk(s, f, false, k == 0, last, offs2);
  }

  /** Ready for output: the timer runs, or it has just fired. */
  ghost predicate Loaded(st: State, s: Sender, o: Sent, iss: nat) {
    && SndInv(s, o, iss) && RecInv(s, o, iss) && Phase(st, s, o) && (Armed(s, o) || Rewound(s, o))
    && (Handshake(st) ==> o.nxt == 0 || o.nxt == o.una)
  }

  /** Loaded behind a key, like SndOk. */
  ghost predicate CanSend(st: State, s: Sender, o: Sent, iss: nat) {
    forall k {:trigger SndKey(k, st, s, o, iss)} :: SndKey(k, st, s, o, iss) ==> Loaded(st, s, o, iss)
  }

  lemma OpenSend(st: State, s: Sender, o: Sent, iss: nat)
    requires CanSend(st, s, o, iss)
    ensures Loaded(st, s, o, iss)
  {
    assert SndKey(0, st, s, o, iss);
  }

  lemma SteadyLoaded(st: State, s: Sender, o: Sent, iss: nat)
    requires SndOk(st, s, o, iss)
    ensures CanSend(st, s, o, iss)
  {
    OpenSnd(st, s, o, iss);
  }

  /** Segments while window and data last, then perhaps the FIN; an empty segment if `ack` wants one and
      none was made. */
  method Output(st: State, s: Sender, h: Header, ack: bool, now: nat, ghost o: Sent)
    returns (st': State, s': Sender, segs: seq<Segment>, ghost o': Sent, ghost offs: seq<int>)
    requires CanSend(st, s, o, h.iss) && Live(st) && h.mss > 0
    ensures SndOk(st', s', o', h.iss) && TimerOk(st', s') && OnlySent(s, s')
    ensures o'.una == o.una && o'.stream == o.stream
    ensures st' == st || (st == Established && st' == FinWait1) || (st == CloseWait && st' == LastAck)
    ensures SegsOk(segs, offs, h, o.stream, s.finQueued) && forall g <- segs :: g.hasAck == (st != SynSent)
    ensures ack && !Handshake(st) ==> segs != []
    ensures Rewound(s, o) ==> |offs| > 0 && offs[0] == o.una
    ensures Sends(st, s, o, h.mss, ack, now, st', s', o', segs, offs)
  {
    OpenSend(st, s, o, h.iss);
    if Handshake(st) {
      st' := st;
      s', segs, o', offs := OutputSyn(st, s, h, now, o);
      return;
    }
    if Sending(st) {
      st', s', segs, o', offs := OutputOpen(st, s, h, ack, now, o);
      return;
    }
    st', s', segs, o', offs := st, s, [], o, [];
    if ack {
      segs, offs := [MakeSegment(s, h, s.nxt, false, false, true, 0)], [o.nxt];
    }
  }

  /** Output in a state that sends data. */
  method OutputOpen(st: State, s: Sender, h: Header, ack: bool, now: nat, ghost o: Sent)
    returns (st': State, s': Sender, segs: seq<Segment>, ghost o': Sent, ghost offs: seq<int>)
    requires Loaded(st, s, o, h.iss) && Sending(st) && h.mss > 0
    ensures Steady(st', s', o', h.iss) && TimerOk(st', s') && OnlySent(s, s')
    ensures o'.una == o.una && o'.stream == o.stream
    ensures st' == st || (st == Established && st' == FinWait1) || (st == CloseWait && st' == LastAck)
    ensures SegsOk(segs, offs, h, o.stream, s.finQueued) && forall g <- segs :: g.hasAck
    ensures ack ==> segs != []
    ensures Rewound(s, o) ==> |offs| > 0 && offs[0] == o.una
    ensures Sends(st, s, o, h.mss, ack, now, st', s', o', segs, offs)
  {
    st', s', segs, o', offs := OutputData(st, s, h, now, o);
    PushedSteady(st, s, o, h, now, st', s', o', segs, offs);
    if ack && segs == [] {
      var g := MakeSegment(s', h, s'.nxt, false, false, true, 0);
      BareFits(s', o', h);
      SendsBare(st, s, o, h.mss, now, st', s', o', g);
      segs, offs := [g], [o'.nxt];
    } else {
      SendsSame(st, s, o, h.mss, ack, now, st', s', o', segs, offs);
    }
  }

  lemma BareFits(s: Sender, o: Sent, h: Header)
    requires SndInv(s, o, h.iss) && 0 <= o.nxt <= |o.stream| + 1
    ensures var g := MakeSegment(s, h, s.nxt, false, false, true, 0);
            Bare(g) && g.hasAck && SegsOk([g], [o.nxt], h, o.stream, s.finQueued)
  {
  }

  /** An empty segment was not asked for, or there is another. */
  lemma SendsSame(st: State, s: Sender, o: Sent, mss: nat, ack: bool, now: nat, st': State, s': Sender, o': Sent,
                  segs: seq<Segment>, offs: seq<int>)
    requires Sending(st) && SendsData(st, s, o, mss, false, st', s', o', segs, offs) && !(ack && segs == [])
    requires OnlySent(s, s') && s'.retxAt == Timed(s, segs, now)
    ensures Sends(st, s, o, mss, ack, now, st', s', o', segs, offs)
  {
    var f := Filled(o, s.wnd, mss);
    var k :| 0 <= k <= |segs| && Tiles(segs[..k], offs[..k], o.nxt, f.nxt, mss)
             && TailOk(s, f, false, k == 0, segs[k..], offs[k..]);
    assert k == 0 ==> segs[k..] == segs;
    assert TailOk(s, f, ack, k == 0, segs[k..], offs[k..]);
    assert SendsData(st, s, o, mss, ack, st', s', o', segs, offs);
  }

  /** The empty segment that `ack` asks for. */
  lemma SendsBare(st: State, s: Sender, o: Sent, mss: nat, now: nat, st': State, s': Sender, o': Sent, g: Segment)
    requires Sending(st) && SendsData(st, s, o, mss, false, st', s', o', [], []) && Bare(g)
    requires OnlySent(s, s') && s'.retxAt == s.retxAt
    ensures Sends(st, s, o, mss, true, now, st', s', o', [g], [o'.nxt])
  {
    var f, segs, offs, none, no := Filled(o, s.wnd, mss), [g], [o'.nxt], [], [];
    var k :| 0 <= k <= 0 && Tiles(none[..k], no[..k], o.nxt, f.nxt, mss)
             && TailOk(s, f, false, k == 0, none[k..], no[k..]);
    assert segs[..0] == none && segs[0..] == segs && offs[..0] == no && offs[0..] == offs;
    assert none[..k] == none && no[..k] == no && none[k..] == none && no[k..] == no;
    assert TailOk(s, f, true, true, segs[0..], offs[0..]);
    assert SendsData(st, s, o, mss, true, st', s', o', segs, offs);
  }

  /** What output in a state that sends data leaves. */
  lemma PushedSteady(st: State, s: Sender, o: Sent, h: Header, now: nat, st': State, s': Sender, o': Sent,
                     segs: seq<Segment>, offs: seq<int>)
    requires Loaded(st, s, o, h.iss) && Sending(st) && Pushed(st, s, o, h, now, st', s', o', segs, offs)
    ensures Steady(st', s', o', h.iss) && TimerOk(st', s') && OnlySent(s, s') && 0 <= o'.nxt <= |o.stream| + 1
    ensures o'.una == o.una && o'.stream == o.stream && (segs == [] ==> o' == o)
    ensures st' == st || (st == Established && st' == FinWait1) || (st == CloseWait && st' == LastAck)
    ensures SegsOk(segs, offs, h, o.stream, s.finQueued) && forall g <- segs :: g.hasAck
    ensures Rewound(s, o) ==> segs != []
    ensures segs != [] ==> offs[0] == o.nxt && !Bare(segs[0])
    ensures s'.retxAt == Timed(s, segs, now) && SendsData(st, s, o, h.mss, false, st', s', o', segs, offs)
  {
    assert SendsKey(0, s, s', segs, offs);
    TilesFirst(st, s, o, h.mss, st', s', o', segs, offs);
    Onward(s, o, h.mss);
    StillSteady(st, s, o, h.iss, st', s', o', Ends(s, Filled(o, s.wnd, h.mss)));
  }

  lemma Onward(s: Sender, o: Sent, mss: nat)
    ensures var o' := Lasted(s, Filled(o, s.wnd, mss));
            o'.una == o.una && o'.stream == o.stream && o'.rec == o.rec && o.nxt <= o'.nxt && o.max <= o'.max
  {
  }

  lemma StillSteady(st: State, s: Sender, o: Sent, iss: nat, st': State, s': Sender, o': Sent, fin: bool)
    requires Loaded(st, s, o, iss) && Sending(st) && SndInv(s', o', iss) && Armed(s', o') && OnlySent(s, s')
    requires o'.una == o.una && o'.stream == o.stream && o'.rec == o.rec && o.nxt <= o'.nxt && o.max <= o'.max
    requires s'.finSeqValid == (s.finSeqValid || fin) && st' == if fin then Closes(st) else st
    ensures Steady(st', s', o', iss) && 0 <= o'.nxt <= |o.stream| + 1
  {
  }

  lemma TilesFirst(st: State, s: Sender, o: Sent, mss: nat, st': State, s': Sender, o': Sent,
                   segs: seq<Segment>, offs: seq<int>)
    requires SendsData(st, s, o, mss, false, st', s', o', segs, offs)
    ensures segs != [] ==> offs[0] == o.nxt && !Bare(segs[0])
    ensures segs == [] ==> o' == o
  {
    var f := Filled(o, s.wnd, mss);
    var k :| 0 <= k <= |segs| && Tiles(segs[..k], offs[..k], o.nxt, f.nxt, mss)
             && TailOk(s, f, false, k == 0, segs[k..], offs[k..]);
    if k > 0 {
      assert Tile(segs[..k], offs[..k], f.nxt, mss, 0);
    } else {
      assert segs[k..] == segs && offs[k..] == offs;
    }
  }

  /** More data at the end of the buffer, or the end of the stream: the positions stay. */
  lemma EnqueueOk(st: State, s: Sender, o: Sent, iss: nat, data: Bytes)
    requires SndOk(st, s, o, iss) && (st == Established || st == CloseWait) && !s.finQueued
    requires |s.buf| + |data| <= SNDBUF
    ensures CanSend(st, s.(buf := s.buf + data), o.(stream := o.stream + data), iss)
    ensures CanSend(st, s.(finQueued := true), o, iss)
  {
    OpenSnd(st, s, o, iss);
    assert (o.stream + data)[Base(o)..] == o.stream[Base(o)..] + data;
  }

  /** No segment leaves the window: each carries no more than a full segment does and
      ends where the peer's window and ours on the segments in flight do, or before; but for the single byte
      that probes a closed window. */
  lemma WithinWindow(st: State, s: Sender, o: Sent, mss: nat, ack: bool, now: nat, st': State, s': Sender, o': Sent,
                     segs: seq<Segment>, offs: seq<int>, i: nat)
    requires Sends(st, s, o, mss, ack, now, st', s', o', segs, offs) && Sending(st) && mss > 0
    requires i < |segs| && segs[i].data != []
    ensures |offs| == |segs| && |segs[i].data| <= mss
    ensures || o.nxt <= offs[i] < offs[i] + |segs[i].data| <= o.una + Min(s.wnd, CWND_SEGS * mss)
            || (s.wnd == 0 && offs[i] == o.una && |segs[i].data| == 1)
  {
    assert SendsKey(0, s, s', segs, offs);
    var f := Filled(o, s.wnd, mss);
    var k :| 0 <= k <= |segs| && Tiles(segs[..k], offs[..k], o.nxt, f.nxt, mss)
             && TailOk(s, f, ack, k == 0, segs[k..], offs[k..]);
    if i < k {
      WithinTiles(s, o, mss, segs[..k], offs[..k], i);
    } else {
      WithinTail(s, o, mss, ack, k == 0, segs[k..], offs[k..], i - k);
      assert segs[k..][i - k] == segs[i] && offs[k..][i - k] == offs[i];
    }
  }

  lemma WithinTail(s: Sender, o: Sent, mss: nat, ack: bool, first: bool, segs: seq<Segment>, offs: seq<int>, i: nat)
    requires TailOk(s, Filled(o, s.wnd, mss), ack, first, segs, offs) && i < |segs| && segs[i].data != []
    ensures s.wnd == 0 && offs[i] == o.una && |segs[i].data| == 1
  {
  }

  lemma WithinTiles(s: Sender, o: Sent, mss: nat, segs: seq<Segment>, offs: seq<int>, i: nat)
    requires Tiles(segs, offs, o.nxt, Filled(o, s.wnd, mss).nxt, mss) && i < |segs|
    ensures |segs[i].data| <= mss
    ensures o.nxt <= offs[i] < offs[i] + |segs[i].data| <= o.una + Min(s.wnd, CWND_SEGS * mss)
  {
    TilesEnd(segs, offs, o.nxt, Filled(o, s.wnd, mss).nxt, mss, i);
    assert Tile(segs, offs, Filled(o, s.wnd, mss).nxt, mss, i);
  }

  lemma {:induction false} TilesEnd(segs: seq<Segment>, offs: seq<int>, from: int, to: int, mss: nat, i: nat)
    requires Tiles(segs, offs, from, to, mss) && i < |segs|
    ensures from <= offs[i] && offs[i] + |segs[i].data| <= to
  {
    TilesFrom(segs, offs, from, to, mss, i);
    TilesTo(segs, offs, from, to, mss, i);
  }

  lemma {:induction false} TilesFrom(segs: seq<Segment>, offs: seq<int>, from: int, to: int, mss: nat, i: nat)
    requires Tiles(segs, offs, from, to, mss) && i < |segs|
    ensures from <= offs[i]
    decreases i
  {
    if i > 0 {
      TilesFrom(segs, offs, from, to, mss, i - 1);
      assert Tile(segs, offs, to, mss, i - 1);
    }
  }

  lemma {:induction false} TilesTo(segs: seq<Segment>, offs: seq<int>, from: int, to: int, mss: nat, i: nat)
    requires Tiles(segs, offs, from, to, mss) && i < |segs|
    ensures offs[i] + |segs[i].data| <= to
    decreases |segs| - i
  {
    if i + 1 < |segs| {
      TilesTo(segs, offs, from, to, mss, i + 1);
      assert Tile(segs, offs, to, mss, i + 1);
    }
    assert Tile(segs, offs, to, mss, i);
  }

  // ---- acknowledgements ----

  /** Just the first unacknowledged segment, as full as it can be, or the FIN. */
  ghost predicate Resent(segs: seq<Segment>, offs: seq<int>, o: Sent, mss: nat) {
    && |segs| == 1 && offs == [o.una]
    && if 0 <= o.una < |o.stream| then |segs[0].data| == Min(|o.stream| - o.una, mss) && !segs[0].fin
       else segs[0].data == [] && segs[0].fin
  }

  /** Sends the segment at una again at once, without touching nxt. */
  method ResendFirst(s: Sender, h: Header, now: nat, ghost o: Sent)
    returns (s': Sender, segs: seq<Segment>, ghost offs: seq<int>)
    requires SndInv(s, o, h.iss) && o.una >= 0 && h.mss > 0 && Armed(s, o) && o.una < o.max
    ensures s' == s.(retxAt := now + s.rto) && s'.retxAt != 0 && Resent(segs, offs, o, h.mss)
    ensures SegsOk(segs, offs, h, o.stream, s.finQueued) && forall g <- segs :: g.hasAck
  {
    s', segs, offs := s, [], [];
    Pointers(s, o, h.iss);
    var dataEnd := Plus(s.bufSeq, |s.buf|);
    Compare(h.iss + 1 + o.una, h.iss + 1 + |o.stream|);
    Compare(h.iss + 1 + |o.stream|, h.iss + 1 + o.una);
    if SeqLt(s.una, dataEnd) && s.una == s.bufSeq {
      var n := Min(Minus(dataEnd, s.una), h.mss);
      DataSegment(s, o, h, o.una, n);
      segs, offs := [MakeSegment(s, h, s.una, false, false, true, n)], [o.una];
    } else if s.finSeqValid && s.una == s.finSeq {
      segs, offs := [MakeSegment(s, h, s.finSeq, false, true, true, 0)], [o.una];
    } else {
      return;
    }
    s' := Arm(s.(retxAt := 0), now);
  }

  /** What an acknowledgement of position a releases. */
  ghost function Acked(o: Sent, a: int): Sent {
    o.(una := a, nxt := if o.nxt < a then a else o.nxt)
  }

  lemma AckPointers(s: Sender, o: Sent, iss: nat, ack: nat, a: int)
    requires SndInv(s, o, iss) && ack == At(iss, a) && 0 <= a && o.una < a <= o.max
    ensures SeqLt(s.nxt, ack) <==> o.nxt < a
    ensures s.finSeqValid ==> (SeqLt(s.finSeq, ack) <==> |o.stream| < a)
  {
    Pointers(s, o, iss);
    Compare(iss + 1 + |o.stream|, iss + 1 + a);
    Compare(iss + 1 + o.nxt, iss + 1 + a);
  }

  lemma AckBase(s: Sender, o: Sent, iss: nat, ack: nat, a: int)
    requires SndInv(s, o, iss) && ack == At(iss, a) && 0 <= a && o.una < a <= o.max
    ensures SeqLt(s.bufSeq, ack) <==> Base(o) < a
    ensures Base(o) < a ==> Minus(ack, s.bufSeq) == a - Base(o)
    ensures var d := Min(a - Base(o), |s.buf|);
            d >= 0 && Base(o) + d == Base(Acked(o, a)) && Plus(s.bufSeq, d) == At(iss, Base(o) + d)
  {
    Pointers(s, o, iss);
    Compare(iss + 1 + Base(o), iss + 1 + a);
    Compare(iss + 1 + a, iss + 1 + Base(o));
    PlusWrap(iss + 1 + Base(o), Min(a - Base(o), |s.buf|));
  }

  lemma DropTwice(s: Bytes, i: nat, j: nat)
    requires i + j <= |s|
    ensures s[i..][j..] == s[i + j..]
  {
  }

  /** Moves una up to ack: the buffer loses its front, and a FIN below ack counts as received. */
  method TakeAck(s: Sender, ack: nat, iss: nat, ghost o: Sent, ghost a: int) returns (s': Sender)
    requires SndInv(s, o, iss) && ack == At(iss, a) && 0 <= a && o.una < a <= o.max
    ensures SndInv(s', Acked(o, a), iss)
    ensures s' == s.(una := ack, nxt := s'.nxt, buf := s'.buf, bufSeq := s'.bufSeq, finAcked := s'.finAcked)
  {
    AckPointers(s, o, iss, ack, a);
    AckBase(s, o, iss, ack, a);
    var d := if SeqLt(s.bufSeq, ack) then Min(Minus(ack, s.bufSeq), |s.buf|) else 0;
    DropTwice(o.stream, Base(o), d);
    s' := s.(una := ack, nxt := if SeqLt(s.nxt, ack) then ack else s.nxt,
             buf := s.buf[d..], bufSeq := Plus(s.bufSeq, d),
             finAcked := s.finAcked || (s.finSeqValid && SeqLt(s.finSeq, ack)));
  }

  /** What a repeated acknowledgement does: the third one in a row makes a resend, unless one has been made
      already; any of them shows a peer with a closed window to be alive. */
  ghost predicate Repeated(s: Sender, o: Sent, wnd: nat, now: nat, mss: nat, s': Sender, o': Sent, segs: seq<Segment>,
                           offs: seq<int>) {
    if wnd == 0 then s' == s.(retries := 0) && o' == o && segs == [] && offs == []
    else if s.dupacks == 2 && !s.inRecovery then
      && s' == s.(dupacks := 3, inRecovery := true, recover := s.max, retxAt := now + s.rto)
      && o' == o.(rec := o.max) && Resent(segs, offs, o, mss)
    else s' == s.(dupacks := s.dupacks + 1) && o' == o && segs == [] && offs == []
  }

  /** What the acknowledgement of position a as a new one does: a resend if the recovery has not reached its
      end with it. */
  ghost predicate Progress(s: Sender, o: Sent, a: int, now: nat, mss: nat, s': Sender, o': Sent, segs: seq<Segment>,
                           offs: seq<int>) {
    && o' == Acked(o, a) && s'.retries == 0 && s'.dupacks == 0 && s'.inRecovery == (s.inRecovery && a < o.rec)
    && s'.finQueued == s.finQueued && s'.finSent == s.finSent && s'.recover == s.recover
    && (s'.rto == s.rto || RTO_MIN <= s'.rto <= RTO_MAX) && s'.retxAt == (if a == o.max then 0 else now + s'.rto)
    && if s'.inRecovery then Resent(segs, offs, o', mss) else segs == [] && offs == []
  }

  ghost predicate AckKey(k: nat, s: Sender, s': Sender, a: int) {
    true
  }

  /** What an acknowledgement does (behind a key). */
  ghost predicate AckDone(s: Sender, o: Sent, a: int, wnd: nat, pure: bool, now: nat, mss: nat, s': Sender, o': Sent,
                          segs: seq<Segment>, offs: seq<int>) {
    forall k {:trigger AckKey(k, s, s', a)} :: AckKey(k, s, s', a) ==>
      && s'.wnd == wnd
      && if o.una < a <= o.max then Progress(s, o, a, now, mss, s', o', segs, offs)
         else if a == o.una != o.max && pure then
           Repeated(s.(wnd := wnd), o, wnd, now, mss, s', o', segs, offs)
         else s' == s.(wnd := wnd) && o' == o && segs == [] && offs == []
  }

  /** One arriving acknowledgement: progress, a repeat of the last one (the third makes a resend), or
      nothing this sender can use. */
  method ProcessAck(s: Sender, h: Header, ack: nat, wnd: nat, pure: bool, now: nat, ghost o: Sent, ghost a: int)
    returns (s': Sender, segs: seq<Segment>, ghost o': Sent, ghost offs: seq<int>)
    requires SndInv(s, o, h.iss) && RecInv(s, o, h.iss) && ack == At(h.iss, a) && 0 <= a && Near(a, o.una)
    requires Near(a, o.max)
    requires h.mss > 0 && Armed(s, o)
    ensures SndInv(s', o', h.iss) && RecInv(s', o', h.iss) && Armed(s', o')
    ensures o' == if o.una < a <= o.max then Acked(o, a) else o.(rec := o'.rec)
    ensures s'.finQueued == s.finQueued && s'.wnd == wnd
    ensures AckDone(s, o, a, wnd, pure, now, h.mss, s', o', segs, offs)
    ensures SegsOk(segs, offs, h, o.stream, s.finQueued) && forall g <- segs :: g.hasAck
  {
    s', segs, o', offs := s, [], o, [];
    Compare(h.iss + 1 + o.una, h.iss + 1 + a);
    Compare(h.iss + 1 + a, h.iss + 1 + o.max);
    Compare(h.iss + 1 + a, h.iss + 1 + o.una);
    Pointers(s, o, h.iss);
    if SeqLt(s.una, ack) && SeqLe(ack, s.max) {
      s', segs, o', offs := NewAck(s, h, ack, now, o, a);
    } else if ack == s.una && s.una != s.max && pure {
      s', segs, o', offs := DuplicateAck(s, h, wnd, now, o);
    }
    s' := s'.(wnd := wnd);
  }

  method DuplicateAck(s: Sender, h: Header, wnd: nat, now: nat, ghost o: Sent)
    returns (s': Sender, segs: seq<Segment>, ghost o': Sent, ghost offs: seq<int>)
    requires SndInv(s, o, h.iss) && RecInv(s, o, h.iss) && 0 <= o.una < o.max && h.mss > 0 && Armed(s, o)
    ensures SndInv(s', o', h.iss) && RecInv(s', o', h.iss) && Armed(s', o')
    ensures Repeated(s, o, wnd, now, h.mss, s', o', segs, offs)
    ensures SegsOk(segs, offs, h, o.stream, s.finQueued) && forall g <- segs :: g.hasAck
  {
    s', segs, o', offs := s, [], o, [];
    if wnd == 0 {
      s' := s.(retries := 0);
    } else {
      s' := s.(dupacks := s.dupacks + 1);
      if s'.dupacks == 3 && !s'.inRecovery {
        s', o' := s'.(inRecovery := true, recover := s'.max), o.(rec := o.max);
        s', segs, offs := ResendFirst(s', h, now, o');
      }
    }
  }

  /** The round-trip estimator may have set the timeout anew, to some value between its limits. */
  method Estimate(rto: nat) returns (r: nat)
    ensures r == rto || RTO_MIN <= r <= RTO_MAX
  {
    r := *;
    r := if r == 0 then rto else if r < RTO_MIN then RTO_MIN else if r > RTO_MAX then RTO_MAX else r;
  }

  method NewAck(s: Sender, h: Header, ack: nat, now: nat, ghost o: Sent, ghost a: int)
    returns (s': Sender, segs: seq<Segment>, ghost o': Sent, ghost offs: seq<int>)
    requires SndInv(s, o, h.iss) && RecInv(s, o, h.iss)
    requires ack == At(h.iss, a) && 0 <= a && o.una < a <= o.max && h.mss > 0
    ensures SndInv(s', o', h.iss) && RecInv(s', o', h.iss) && Armed(s', o')
    ensures Progress(s, o, a, now, h.mss, s', o', segs, offs)
    ensures SegsOk(segs, offs, h, o.stream, s.finQueued) && forall g <- segs :: g.hasAck
  {
    Pointers(s, o, h.iss);
    s' := TakeAck(s, ack, h.iss, o, a);
    segs, o', offs := [], Acked(o, a), [];
    Pointers(s', o', h.iss);
    var rto := Estimate(s'.rto);
    s' := s'.(retries := 0, retxAt := 0, dupacks := 0, rto := rto);
    if s'.una != s'.max {
      s' := Arm(s', now);
    }
    if s'.inRecovery {
      Compare(h.iss + 1 + a, h.iss + 1 + o.rec);
      if SeqLt(ack, s'.recover) {
        s', segs, offs := ResendFirst(s', h, now, o');
      } else {
        s' := s'.(inRecovery := false);
      }
    }
  }

  // ---- the retransmission timer ----

  /** Everything from the oldest unacknowledged position on is to be sent again, with twice the timeout. */
  function Restarted(s: Sender): Sender {
    s.(retxAt := 0, retries := s.retries + 1, inRecovery := false, dupacks := 0,
       rto := if s.rto * 2 > RTO_MAX then RTO_MAX else s.rto * 2, nxt := s.una, finSent := s.finSent && s.finAcked)
  }

  /** The segment has been sent often enough. */
  predicate GivesUp(st: State, s: Sender) {
    s.retries >= if Handshake(st) then SYN_RETRIES else DATA_RETRIES
  }

  /** What the timer does: it ends the connection, or all that is unacknowledged is sent again (behind a
      key). */
  ghost predicate TimeoutDone(st: State, s: Sender, o: Sent, mss: nat, now: nat, st': State, s': Sender, o': Sent,
                              segs: seq<Segment>, offs: seq<int>) {
    forall k {:trigger SendsKey(k, s, s', segs, offs)} :: SendsKey(k, s, s', segs, offs) ==>
      if GivesUp(st, s) then st' == Closed && s' == s.(retxAt := 0, retries := s.retries + 1) && o' == o && segs == []
      else if st == Closed then
        && st' == st && s' == Restarted(s).(retxAt := now + Restarted(s).rto) && o' == o.(nxt := o.una) && segs == []
      else Sends(st, Restarted(s), o.(nxt := o.una), mss, false, now, st', s', o', segs, offs)
  }

  /** The timer fires: give up after too many tries, else go back to the oldest unacknowledged
      position and send from there. */
  method Timeout(st: State, s: Sender, h: Header, now: nat, ghost o: Sent)
    returns (failed: bool, st': State, s': Sender, segs: seq<Segment>, ghost o': Sent, ghost offs: seq<int>)
    requires Live(st) ==> SndOk(st, s, o, h.iss)
    requires h.mss > 0 && s.retxAt != 0 && st != Listen
    ensures if failed then st' == Closed && s'.retxAt == 0
            else Live(st) ==> SndOk(st', s', o', h.iss) && TimerOk(st', s')
    ensures o'.una == o.una && o'.stream == o.stream && s'.finQueued == s.finQueued
    ensures st == Closed ==> segs == []
    ensures Live(st) && !failed ==> |offs| > 0 && offs[0] == o.una
    ensures failed <==> GivesUp(st, s)
    ensures failed || st' == st || (st == Established && st' == FinWait1) || (st == CloseWait && st' == LastAck)
    ensures SegsOk(segs, offs, h, o.stream, s.finQueued) && forall g <- segs :: g.hasAck == (st != SynSent)
    ensures TimeoutDone(st, s, o, h.mss, now, st', s', o', segs, offs)
  {
    if Live(st) {
      OpenSnd(st, s, o, h.iss);
    }
    failed, st', s', segs, o', offs := false, st, s.(retxAt := 0, retries := s.retries + 1), [], o, [];
    var limit := if Handshake(st) then SYN_RETRIES else DATA_RETRIES;
    if s'.retries > limit {
      failed, st' := true, Closed;
      return;
    }
    s' := s'.(inRecovery := false, dupacks := 0, rto := if s.rto * 2 > RTO_MAX then RTO_MAX else s.rto * 2,
              nxt := s.una, finSent := s.finSent && s.finAcked);
    o' := o.(nxt := o.una);
    if Live(st) {
      st', s', segs, o', offs := Output(st, s', h, false, now, o');
      OpenSnd(st', s', o', h.iss);
    }
    s' := Arm(s', now);
  }
}
