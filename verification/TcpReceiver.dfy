/** The receiving half of a TCP connection: the window test, trimming of what is already there,
    the slots that keep out-of-order segments, and the FIN. */
module TcpReceiver {
  import opened Common
  import opened SeqNum
  import opened TcpSender

  const RCVBUF := 32768
  const MSS := 1460
  const OOO := 8

  /** A kept out-of-order segment; free when it holds no data. */
  datatype Slot = Slot(seqNo: nat, data: Bytes)

  datatype Receiver = Receiver(nxt: nat, rbuf: Bytes, ooo: seq<Slot>, finReceived: bool)

  /** What the application has taken, the unbounded position of nxt (-1 before the peer's SYN), those
      of the kept segments, and where nxt was when the merge last came to each slot. */
  datatype Rcvd = Rcvd(taken: Bytes, pos: int, kept: seq<int>, seen: seq<int>)

  /** The other end: its initial sequence number, what it has written so far, and whether it ended there. */
  datatype Peer = Peer(isn: nat, stream: Bytes, fin: bool)

  function Window(r: Receiver): nat {
    if |r.rbuf| > RCVBUF then 0 else Min(RCVBUF - |r.rbuf|, 65535)
  }

  /** The bytes are those of the peer's stream at off. */
  ghost predicate BytesAt(data: Bytes, off: int, w: Peer) {
    0 <= off && off + |data| <= |w.stream| && data == w.stream[off..off + |data|]
  }

  ghost predicate SlotOk(sl: Slot, at: int, w: Peer) {
    sl.data != [] ==> BytesAt(sl.data, at, w) && sl.seqNo == At(w.isn, at) && |sl.data| <= MSS
  }

  /** What was taken and what waits in the buffer are together exactly the peer's stream up to nxt;
      a received FIN means all of it. */
  ghost predicate Received(r: Receiver, q: Rcvd, w: Peer) {
    && 0 <= q.pos && r.nxt == At(w.isn, q.pos) && |r.rbuf| <= RCVBUF
    && (if r.finReceived then w.fin && q.pos == |w.stream| + 1 && q.taken + r.rbuf == w.stream
        else q.pos <= |w.stream| && q.taken + r.rbuf == w.stream[..q.pos])
    && |r.ooo| == OOO == |q.kept| == |q.seen|
    && forall i | 0 <= i < OOO :: SlotOk(r.ooo[i], q.kept[i], w)
  }

  /** ... and while more may come, what is kept for later is not old. */
  ghost predicate RcvInv(r: Receiver, q: Rcvd, w: Peer) {
    Received(r, q, w) && (!r.finReceived ==> InStepAll(r, q, OOO) && q.pos - q.seen[0] <= RCVBUF)
  }

  // ---- kept segments do not grow old ----

  /** How far nxt can go on before the merge comes to slot i again. */
  function Lag(i: nat): int {
    if i == 0 then 2 * RCVBUF else 2 * Lag(i - 1) + 2 * MSS
  }

  lemma LagSmall(i: nat)
    requires i < OOO
    ensures 0 <= Lag(i) < 0x100_0000
  {
    assert Lag(0) == 65536 && Lag(1) == 133992 && Lag(2) == 270904 && Lag(3) == 544728;
    assert Lag(4) == 1092376 && Lag(5) == 2187672 && Lag(6) == 4378264 && Lag(7) == 8759448;
  }

  /** Slot i, where it is in use, ends behind the position at which it was seen last, and it was not
      far ahead when it was kept. */
  ghost predicate SlotRecent(r: Receiver, q: Rcvd, i: nat)
    requires i < |r.ooo| && i < |q.kept| && i < |q.seen|
  {
    && q.seen[i] <= q.pos
    && (r.ooo[i].data != [] ==> q.seen[i] < q.kept[i] + MSS && q.kept[i] <= q.pos + 0x1_0000)
  }

  /** Slot i is passed over only while the data of slot i - 1 continues at nxt and finds no room; and
      that data was there before nxt could go far. */
  ghost predicate InStep(r: Receiver, q: Rcvd, i: nat)
    requires 0 < i < |r.ooo| && i < |q.kept| && i < |q.seen|
  {
    || q.seen[i - 1] <= q.seen[i]
    || (r.ooo[i - 1].data != [] && q.kept[i - 1] <= q.seen[i] + Lag(i - 1))
  }

  /** All slots are in step, but for slot `at`, which the merge comes to next. */
  ghost predicate InStepAll(r: Receiver, q: Rcvd, at: nat) {
    && |r.ooo| == OOO == |q.kept| == |q.seen|
    && (forall i | 0 <= i < OOO :: SlotRecent(r, q, i))
    && (forall i | 0 < i < OOO && i != at :: InStep(r, q, i))
  }

  lemma SameSlots(r: Receiver, q: Rcvd, r': Receiver, q': Rcvd)
    requires InStepAll(r, q, OOO) && r'.ooo == r.ooo && q'.kept == q.kept && q'.seen == q.seen && q'.pos == q.pos
    ensures InStepAll(r', q', OOO)
  {
    forall i | 0 <= i < OOO ensures SlotRecent(r', q', i) {
      assert SlotRecent(r, q, i);
    }
    forall i | 0 < i < OOO ensures InStep(r', q', i) {
      assert InStep(r, q, i);
    }
  }

  /** The slot after one that was seen lately is seen soon. */
  lemma NextSeen(r: Receiver, q: Rcvd, at: nat, i: nat)
    requires InStepAll(r, q, at) && i + 1 < OOO && i + 1 != at && q.pos - q.seen[i] <= Lag(i)
    ensures q.pos - q.seen[i + 1] <= Lag(i + 1) - MSS
  {
    assert InStep(r, q, i + 1) && SlotRecent(r, q, i);
    LagSmall(i);
  }

  /** A kept segment that the merge comes to is near enough for 32-bit comparisons. */
  lemma SlotNear(r: Receiver, q: Rcvd, at: nat, i: nat)
    requires InStepAll(r, q, at) && i < OOO && r.ooo[i].data != [] && q.pos - q.seen[i] <= Lag(i)
    ensures -0x200_0000 < q.kept[i] - q.pos < 0x200_0000
  {
    assert SlotRecent(r, q, i);
    LagSmall(i);
  }

  /** The stream goes on being written until it is ended. */
  ghost predicate Grown(w: Peer, w': Peer) {
    w.isn == w'.isn && w.stream <= w'.stream && (w.fin ==> w' == w)
  }

  lemma RcvGrown(r: Receiver, q: Rcvd, w: Peer, w': Peer)
    requires RcvInv(r, q, w) && Grown(w, w')
    ensures RcvInv(r, q, w')
  {
    assert r.finReceived ==> w' == w;
    if !r.finReceived {
      assert w.stream[..q.pos] == w'.stream[..q.pos];
    }
    forall i | 0 <= i < OOO ensures SlotOk(r.ooo[i], q.kept[i], w') {
      assert SlotOk(r.ooo[i], q.kept[i], w);
      if r.ooo[i].data != [] {
        var at, n := q.kept[i], |r.ooo[i].data|;
        assert w.stream[at..at + n] == w'.stream[at..at + n];
      }
    }
  }

  /** The window offered ends exactly a buffer's length behind what the application has taken, so it never
      draws back (and one further once the FIN is in, which takes no room). */
  lemma WindowEdge(r: Receiver, q: Rcvd, w: Peer)
    requires RcvInv(r, q, w)
    ensures q.pos + Window(r) == |q.taken| + RCVBUF + if r.finReceived then 1 else 0
  {
    assert |q.taken + r.rbuf| == |q.taken| + |r.rbuf|;
  }

  // ---- the window test ----

  /** The lifetime bound: the segment is less than half the number space away, by a window and a
      segment. */
  predicate Fresh(off: int, pos: int) {
    -0x7FFE_0000 < off - pos < 0x7FFE_0000
  }

  function SegLen(g: Segment): nat {
    |g.data| + (if g.syn then 1 else 0) + (if g.fin then 1 else 0)
  }

  predicate Inside(nxt: nat, wnd: nat, seqNo: nat) {
    SeqLe(nxt, seqNo) && SeqLt(seqNo, Plus(nxt, wnd))
  }

  predicate InWindow(r: Receiver, g: Segment) {
    var wnd, len := Window(r), SegLen(g);
    if len == 0 then
      if wnd > 0 then Inside(r.nxt, wnd, g.seqNo) else g.seqNo == r.nxt
    else
      wnd > 0 && (Inside(r.nxt, wnd, g.seqNo) || Inside(r.nxt, wnd, Plus(g.seqNo, len - 1)))
  }

  lemma InsideIff(isn: nat, pos: int, wnd: nat, x: int)
    requires wnd <= 0xFFFF && Near(x, pos + 0x1_0000) && Near(x, pos)
    ensures Inside(At(isn, pos), wnd, At(isn, x)) <==> pos <= x < pos + wnd
  {
    var z := isn + 1;
    Compare(z + pos, z + x);
    PlusWrap(z + pos, wnd);
    Compare(z + x, z + pos + wnd);
  }

  /** The segment at off occupies a position of the window that starts at pos. */
  predicate Overlaps(off: int, len: nat, pos: int, wnd: nat) {
    off < pos + wnd && pos < off + len
  }

  /** The test looks at the first and the last position of a segment, so of the segments that overlap
      the window it refuses exactly those that stick out on both sides. */
  lemma WindowTest(r: Receiver, g: Segment, isn: nat, off: int, pos: int)
    requires r.nxt == At(isn, pos) && g.seqNo == At(isn, off) && |g.data| < 0x1_0000 && Fresh(off, pos)
    ensures SegLen(g) > 0 ==>
              (InWindow(r, g) <==>
                 Overlaps(off, SegLen(g), pos, Window(r)) && !(off < pos && pos + Window(r) < off + SegLen(g)))
    ensures SegLen(g) == 0 ==> (InWindow(r, g) <==> pos <= off < pos + Window(r) || off == pos)
  {
    var wnd, len := Window(r), SegLen(g);
    InsideIff(isn, pos, wnd, off);
    Compare(isn + 1 + off, isn + 1 + pos);
    if len > 0 {
      PlusWrap(isn + 1 + off, len - 1);
      InsideIff(isn, pos, wnd, off + (len - 1));
    }
  }

  /** A one-byte window refuses a retransmission that reaches past it on both sides. */
  lemma OverlapRefused()
    ensures var r := Receiver(100, seq(32767, i => 0), seq(8, i => Slot(0, [])), false);
            var g := Segment(99, 0, false, false, true, 0, [0, 0, 0]);
            Overlaps(98, SegLen(g), 99, Window(r)) && !InWindow(r, g)
  {
    var r := Receiver(100, seq(32767, i => 0), seq(8, i => Slot(0, [])), false);
    var g := Segment(99, 0, false, false, true, 0, [0, 0, 0]);
    WindowTest(r, g, 0, 98, 99);
  }

  // ---- the buffer and the slots ----

  function Append(r: Receiver, data: Bytes): Receiver {
    r.(rbuf := r.rbuf + data, nxt := Plus(r.nxt, |data|))
  }

  lemma AppendOk(r: Receiver, q: Rcvd, w: Peer, data: Bytes)
    requires Received(r, q, w) && !r.finReceived && |r.rbuf| + |data| <= RCVBUF
    requires BytesAt(data, q.pos, w)
    ensures Received(Append(r, data), q.(pos := q.pos + |data|), w)
  {
    PlusWrap(w.isn + 1 + q.pos, |data|);
    assert w.stream[..q.pos] + data == w.stream[..q.pos + |data|];
    assert q.taken + (r.rbuf + data) == (q.taken + r.rbuf) + data;
  }

  lemma SlotSet(r: Receiver, q: Rcvd, w: Peer, i: nat, sl: Slot, at: int)
    requires Received(r, q, w) && i < OOO && SlotOk(sl, at, w)
    ensures Received(r.(ooo := r.ooo[i := sl]), q.(kept := q.kept[i := at]), w)
  {
  }

  /** A segment beyond a gap is kept as it is, unless it is too long, one with its number is kept already,
      or there is no slot for it. */
  ghost predicate Stashed(r: Receiver, r': Receiver, seqNo: nat, data: Bytes) {
    && |r'.ooo| == |r.ooo|
    && (forall i | 0 <= i < |r.ooo| ::
          r'.ooo[i] == r.ooo[i] || (r.ooo[i].data == [] && r'.ooo[i] == Slot(seqNo, data)))
    && (|data| <= MSS ==>
          || Slot(seqNo, data) in r'.ooo || (exists sl <- r.ooo :: sl.data != [] && sl.seqNo == seqNo)
          || (forall sl <- r.ooo :: sl.data != []))
  }

  /** A segment beyond the gap goes into a free slot, unless one with its number is there. */
  method Store(r: Receiver, seqNo: nat, data: Bytes, ghost q: Rcvd, ghost w: Peer, ghost off: int)
    returns (r': Receiver, ghost q': Rcvd)
    requires RcvInv(r, q, w) && !r.finReceived && data != [] && BytesAt(data, off, w) && seqNo == At(w.isn, off)
    requires q.pos <= off <= q.pos + 0x1_0000
    ensures RcvInv(r', q', w) && r' == r.(ooo := r'.ooo) && q' == q.(kept := q'.kept)
    ensures forall i | 0 <= i < OOO && r.ooo[i].data != [] :: q'.kept[i] == q.kept[i]
    ensures SeqLt(r.nxt, seqNo) ==> Stashed(r, r', seqNo, data)
  {
    r', q' := r, q;
    if !SeqLt(r.nxt, seqNo) || |data| > MSS {
      return;
    }
    var free := -1;
    for i := 0 to OOO
      invariant -1 <= free < i
      invariant free >= 0 ==> r.ooo[free].data == []
      invariant free < 0 ==> forall j | 0 <= j < i :: r.ooo[j].data != []
    {
      if r.ooo[i].data != [] && r.ooo[i].seqNo == seqNo {
        assert r.ooo[i] in r.ooo;
        return;
      }
      if r.ooo[i].data == [] && free < 0 {
        free := i;
      }
    }
    if free >= 0 {
      SlotSet(r, q, w, free, Slot(seqNo, data), off);
      StoreInStep(r, q, free, Slot(seqNo, data), off);
      r', q' := r.(ooo := r.ooo[free := Slot(seqNo, data)]), q.(kept := q.kept[free := off]);
      assert r'.ooo[free] == Slot(seqNo, data);
    }
  }

  /** A new segment in a free slot. */
  lemma StoreInStep(r: Receiver, q: Rcvd, k: nat, sl: Slot, off: int)
    requires InStepAll(r, q, OOO) && k < OOO && r.ooo[k].data == [] && q.pos <= off <= q.pos + 0x1_0000
    ensures InStepAll(r.(ooo := r.ooo[k := sl]), q.(kept := q.kept[k := off]), OOO)
  {
    var r', q' := r.(ooo := r.ooo[k := sl]), q.(kept := q.kept[k := off]);
    forall i | 0 <= i < OOO ensures SlotRecent(r', q', i) {
      assert SlotRecent(r, q, i);
    }
    forall i | 0 < i < OOO ensures InStep(r', q', i) {
      assert InStep(r, q, i);
    }
  }

  /** Kept data that continues at nxt. */
  lemma SlotTail(sl: Slot, at: int, w: Peer, pos: int)
    requires BytesAt(sl.data, at, w) && at <= pos < at + |sl.data|
    ensures BytesAt(sl.data[pos - at..], pos, w)
  {
    assert sl.data[pos - at..] == w.stream[pos..at + |sl.data|];
  }

  /** The comparisons that decide what happens to a kept segment. */
  lemma SlotCompare(sl: Slot, at: int, w: Peer, nxt: nat, pos: int)
    requires sl.data != [] && SlotOk(sl, at, w) && nxt == At(w.isn, pos) && -0x7000_0000 < at - pos < 0x7000_0000
    ensures SeqLe(Plus(sl.seqNo, |sl.data|), nxt) <==> at + |sl.data| <= pos
    ensures SeqLe(sl.seqNo, nxt) <==> at <= pos
    ensures at <= pos ==> Minus(nxt, sl.seqNo) == pos - at
  {
    var z := w.isn + 1;
    PlusWrap(z + at, |sl.data|);
    Compare(z + at + |sl.data|, z + pos);
    Compare(z + at, z + pos);
    Compare(z + pos, z + at);
  }

  /** All kept segments lie beyond nxt. */
  ghost predicate Beyond(r: Receiver, q: Rcvd, k: nat) {
    forall i | 0 <= i < k && i < |r.ooo| && i < |q.kept| :: r.ooo[i].data != [] ==> q.pos < q.kept[i]
  }

  /** A kept segment continues at nxt but the buffer has no room for it. */
  ghost predicate Stuck(r: Receiver, q: Rcvd, i: nat) {
    && i < |r.ooo| && i < |q.kept| && r.ooo[i].data != []
    && q.kept[i] <= q.pos < q.kept[i] + |r.ooo[i].data|
    && q.kept[i] + |r.ooo[i].data| - q.pos > RCVBUF - |r.rbuf|
  }

  /** What is kept and goes beyond nxt stays kept. */
  ghost predicate Keeps(r: Receiver, q: Rcvd, r': Receiver, q': Rcvd) {
    && |r'.ooo| == |r.ooo| == |q.kept| && q'.kept == q.kept
    && forall i | 0 <= i < |r.ooo| :: r.ooo[i].data != [] && q.kept[i] + |r.ooo[i].data| > q'.pos ==>
         r'.ooo[i] == r.ooo[i]
  }

  function Clear(r: Receiver, i: nat): Receiver
    requires i < |r.ooo|
  {
    r.(ooo := r.ooo[i := Slot(r.ooo[i].seqNo, [])])
  }

  lemma ClearOk(r: Receiver, q: Rcvd, w: Peer, i: nat)
    requires Received(r, q, w) && i < OOO
    ensures Received(Clear(r, i), q, w)
  {
    SlotSet(r, q, w, i, Slot(r.ooo[i].seqNo, []), q.kept[i]);
    assert q.kept[i := q.kept[i]] == q.kept;
  }

  /** The part of a kept segment from nxt on is appended. */
  lemma AppendSlot(r: Receiver, q: Rcvd, w: Peer, i: nat, off: nat)
    requires Received(r, q, w) && !r.finReceived && i < OOO && off < |r.ooo[i].data| && q.pos == q.kept[i] + off
    requires |r.rbuf| + |r.ooo[i].data| - off <= RCVBUF
    ensures Received(Append(Clear(r, i), r.ooo[i].data[off..]), q.(pos := q.pos + |r.ooo[i].data| - off), w)
  {
    ClearOk(r, q, w, i);
    assert SlotOk(r.ooo[i], q.kept[i], w);
    SlotTail(r.ooo[i], q.kept[i], w, q.pos);
    AppendOk(Clear(r, i), q, w, r.ooo[i].data[off..]);
  }

  /** The merge has come to slot i and goes on, or stops there for want of room. */
  function Come(q: Rcvd, i: nat): Rcvd
    requires i < |q.seen|
  {
    q.(seen := q.seen[i := q.pos])
  }

  lemma ComeStuck(r: Receiver, q: Rcvd, i: nat)
    requires InStepAll(r, q, i) && i < OOO && Stuck(r, q, i) && |r.ooo[i].data| <= MSS && q.pos - q.seen[i] <= Lag(i)
    ensures InStepAll(r, Come(q, i), OOO)
  {
    var q' := Come(q, i);
    forall j | 0 <= j < OOO ensures SlotRecent(r, q', j) {
      assert SlotRecent(r, q, j);
    }
    forall j | 0 < j < OOO ensures InStep(r, q', j) {
      assert SlotRecent(r, q, j - 1);
      assert j != i ==> InStep(r, q, j);
    }
  }

  /** Slot i holds nothing more, or only what lies beyond nxt. */
  lemma ComePast(r: Receiver, q: Rcvd, i: nat, r': Receiver, pos: int)
    requires InStepAll(r, q, i) && i < OOO && q.pos <= pos && |r'.ooo| == OOO
    requires forall j | 0 <= j < OOO && j != i :: r'.ooo[j] == r.ooo[j]
    requires (r'.ooo[i] == r.ooo[i] && q.pos < q.kept[i]) || r'.ooo[i].data == []
    ensures InStepAll(r', Come(q, i).(pos := pos), i + 1)
  {
    var q' := Come(q, i).(pos := pos);
    forall j | 0 <= j < OOO ensures SlotRecent(r', q', j) {
      assert SlotRecent(r, q, j);
    }
    forall j | 0 < j < OOO && j != i + 1 ensures InStep(r', q', j) {
      assert SlotRecent(r, q, j - 1);
      assert j != i ==> InStep(r, q, j);
    }
  }

  /** One kept segment: dropped when nothing in it is new, appended when it continues at nxt. */
  method MergeSlot(r: Receiver, i: nat, ghost q: Rcvd, ghost w: Peer)
    returns (r': Receiver, moved: bool, full: bool, ghost q': Rcvd)
    requires Received(r, q, w) && !r.finReceived && i < OOO
    requires InStepAll(r, q, i) && q.pos - q.seen[i] <= Lag(i)
    ensures Received(r', q', w) && q' == Come(q, i).(pos := q'.pos) && !r'.finReceived
    ensures q'.pos - q.pos == |r'.rbuf| - |r.rbuf| <= MSS && (if moved then q'.pos > q.pos else q'.pos == q.pos)
    ensures r'.ooo == r.ooo || r'.ooo == r.ooo[i := Slot(r.ooo[i].seqNo, [])]
    ensures if full then r' == r && Stuck(r, q', i) else r'.ooo[i].data != [] ==> q'.pos < q.kept[i]
    ensures Keeps(r, q, r', q')
    ensures InStepAll(r', q', if full then OOO else i + 1)
  {
    r', moved, full, q' := r, false, false, Come(q, i);
    var sl := r.ooo[i];
    if sl.data == [] {
      ComePast(r, q, i, r, q.pos);
      return;
    }
    assert SlotOk(sl, q.kept[i], w);
    SlotNear(r, q, i, i);
    SlotCompare(sl, q.kept[i], w, r.nxt, q.pos);
    if SeqLe(Plus(sl.seqNo, |sl.data|), r.nxt) {
      ClearOk(r, q, w, i);
      r' := Clear(r, i);
      ComePast(r, q, i, r', q.pos);
    } else if SeqLe(sl.seqNo, r.nxt) {
      var off := Minus(r.nxt, sl.seqNo);
      if |sl.data| - off > RCVBUF - |r.rbuf| {
        full := true;
        ComeStuck(r, q, i);
      } else {
        AppendSlot(r, q, w, i, off);
        r', moved, q' := Append(Clear(r, i), sl.data[off..]), true, q'.(pos := q.pos + |sl.data| - off);
        ComePast(r, q, i, r', q'.pos);
      }
    } else {
      ComePast(r, q, i, r, q.pos);
    }
  }

  /** One pass over the slots. */
  method MergePass(r: Receiver, ghost q: Rcvd, ghost w: Peer)
    returns (r': Receiver, progress: bool, full: bool, ghost q': Rcvd)
    requires Received(r, q, w) && !r.finReceived && InStepAll(r, q, OOO) && q.pos - q.seen[0] <= Lag(0)
    ensures RcvInv(r', q', w) && q' == q.(pos := q'.pos, seen := q'.seen) && !r'.finReceived
    ensures q'.pos - q.pos == |r'.rbuf| - |r.rbuf| && (if progress then q'.pos > q.pos else q'.pos == q.pos)
    ensures full ==> exists i | 0 <= i < OOO :: Stuck(r', q', i)
    ensures !full && !progress ==> Beyond(r', q', OOO)
    ensures Keeps(r, q, r', q')
  {
    r', progress, full, q' := r, false, false, q;
    for i := 0 to OOO
      invariant Received(r', q', w) && q' == q.(pos := q'.pos, seen := q'.seen) && !r'.finReceived
      invariant q'.pos - q.pos == |r'.rbuf| - |r.rbuf| && (if progress then q'.pos > q.pos else q'.pos == q.pos)
      invariant !progress ==> Beyond(r', q', i)
      invariant InStepAll(r', q', i) && (if i > 0 then q'.seen[0] == q.pos else q'.pos == q.pos)
      invariant i < OOO ==> q'.pos - q'.seen[i] <= Lag(i)
      invariant Keeps(r, q, r', q')
    {
      if i + 1 < OOO {
        NextSeen(r', q', i, i);
      }
      var moved;
      r', moved, full, q' := MergeSlot(r', i, q', w);
      progress := progress || moved;
      if full {
        return;
      }
    }
  }

  /** Afterwards every slot lies beyond the next byte, or one that should follow finds no room. */
  method Merge(r: Receiver, ghost q: Rcvd, ghost w: Peer) returns (r': Receiver, ghost q': Rcvd)
    requires Received(r, q, w) && !r.finReceived && InStepAll(r, q, OOO) && q.pos - q.seen[0] <= Lag(0)
    ensures RcvInv(r', q', w) && q' == q.(pos := q'.pos, seen := q'.seen) && !r'.finReceived
    ensures q'.pos - q.pos == |r'.rbuf| - |r.rbuf| && q'.pos >= q.pos
    ensures Beyond(r', q', OOO) || exists i | 0 <= i < OOO :: Stuck(r', q', i)
    ensures Keeps(r, q, r', q')
  {
    r', q' := r, q;
    var progress := true;
    while progress
      invariant Received(r', q', w) && q' == q.(pos := q'.pos, seen := q'.seen) && !r'.finReceived
      invariant InStepAll(r', q', OOO) && q'.pos - q'.seen[0] <= Lag(0)
      invariant q'.pos - q.pos == |r'.rbuf| - |r.rbuf| && q'.pos >= q.pos
      invariant progress || (RcvInv(r', q', w) && Beyond(r', q', OOO))
      invariant Keeps(r, q, r', q')
      decreases RCVBUF - |r'.rbuf|, progress
    {
      var full;
      r', progress, full, q' := MergePass(r', q', w);
      if full {
        return;
      }
    }
  }

  // ---- an acceptable segment ----

  /** Of what was kept, only that has gone which has been appended; and what could be has been. */
  ghost predicate Merged(r: Receiver, q: Rcvd, r': Receiver, q': Rcvd) {
    Keeps(r, q, r', q') && (Beyond(r', q', OOO) || exists i | 0 <= i < OOO :: Stuck(r', q', i))
  }

  /** What becomes of an acceptable segment at `off`: nothing after the FIN; at or before nxt its text is
      appended as far as there is room, with what is kept and follows, and its FIN is taken if all of the
      text was; beyond nxt it is kept.  Text is always answered, and a FIN that is in. */
  ghost predicate TookAll(open: bool, r: Receiver, q: Rcvd, g: Segment, off: int, r': Receiver, q': Rcvd, needAck: bool)
  {
    var end, room := off + |g.data|, RCVBUF - |r.rbuf|;
    && q'.taken == q.taken && (needAck <==> g.data != [] || (g.fin && r'.finReceived))
    && if !open then r' == r && q' == q
       else if off > q.pos then
         && r' == r.(ooo := r'.ooo) && q'.pos == q.pos
         && if g.data == [] then r' == r else Stashed(r, r', g.seqNo, g.data)
       else
         && q'.pos >= q.pos && (r'.finReceived <==> g.fin && end <= q.pos + room)
         && (if end <= q.pos then r' == r.(nxt := r'.nxt, finReceived := r'.finReceived)
             else
               && (q'.pos >= end || q'.pos >= q.pos + room)
               && Merged(r, q, r', if r'.finReceived then q'.(pos := q'.pos - 1) else q'))
  }

  ghost predicate TookKey(k: nat, r: Receiver, r': Receiver) {
    true
  }

  /** TookAll behind a key. */
  ghost predicate Took(open: bool, r: Receiver, q: Rcvd, g: Segment, off: int, r': Receiver, q': Rcvd, needAck: bool) {
    forall k {:trigger TookKey(k, r, r')} :: TookKey(k, r, r') ==> TookAll(open, r, q, g, off, r', q', needAck)
  }

  /** Data at or beyond nxt: appended as far as there is room, or kept for later; `whole` unless
      some of it was left. */
  method TakeData(r: Receiver, open: bool, seqNo: nat, data: Bytes, ghost q: Rcvd, ghost w: Peer, ghost off: int)
    returns (r': Receiver, whole: bool, ghost q': Rcvd)
    requires RcvInv(r, q, w) && open == !r.finReceived && data != [] && |data| < 0x1_0000
    requires BytesAt(data, off, w) && seqNo == At(w.isn, off) && q.pos <= off <= q.pos + 0x1_0000
    ensures RcvInv(r', q', w) && r'.finReceived == r.finReceived && q'.taken == q.taken
    ensures 0 <= q'.pos - q.pos <= RCVBUF && |r'.rbuf| >= |r.rbuf|
    ensures open && off == q.pos ==> q'.pos >= Min(off + |data|, q.pos + RCVBUF - |r.rbuf|)
    ensures whole <==> open && off == q.pos && |data| <= RCVBUF - |r.rbuf|
    ensures !open ==> r' == r && q' == q
    ensures open && off == q.pos ==> Merged(r, q, r', q')
    ensures open && off > q.pos ==> r' == r.(ooo := r'.ooo) && q'.pos == q.pos && Stashed(r, r', seqNo, data)
  {
    r', whole, q' := r, false, q;
    Compare(w.isn + 1 + off, w.isn + 1 + q.pos);
    Compare(w.isn + 1 + q.pos, w.isn + 1 + off);
    if seqNo == r.nxt && open {
      var n := Min(|data|, RCVBUF - |r.rbuf|);
      assert data[..n] == w.stream[off..off + n];
      AppendOk(r, q, w, data[..n]);
      AppendInStep(r, q, data[..n]);
      whole := n == |data|;
      r', q' := Merge(Append(r, data[..n]), q.(pos := q.pos + n), w);
    } else if open {
      r', q' := Store(r, seqNo, data, q, w, off);
    }
  }

  /** More data in the buffer, before the merge. */
  lemma AppendInStep(r: Receiver, q: Rcvd, data: Bytes)
    requires InStepAll(r, q, OOO) && q.pos - q.seen[0] <= RCVBUF && |data| <= RCVBUF
    ensures InStepAll(Append(r, data), q.(pos := q.pos + |data|), OOO) && q.pos + |data| - q.seen[0] <= Lag(0)
  {
    var r', q' := Append(r, data), q.(pos := q.pos + |data|);
    forall i | 0 <= i < OOO ensures SlotRecent(r', q', i) {
      assert SlotRecent(r, q, i);
    }
    forall i | 0 < i < OOO ensures InStep(r', q', i) {
      assert InStep(r, q, i);
    }
  }

  /** Cuts off the part of the data that is already there. */
  method Trim(r: Receiver, g: Segment, ghost q: Rcvd, ghost w: Peer, ghost off: int)
    returns (seqNo: nat, data: Bytes, ghost at: int)
    requires r.nxt == At(w.isn, q.pos) && 0 <= q.pos && SegOk(g, off, w.isn, w.stream, w.fin) && Fresh(off, q.pos)
    ensures seqNo == At(w.isn, at) && (at == off || (at == q.pos && off <= q.pos))
    ensures data != [] ==> BytesAt(data, at, w) && q.pos <= at && at + |data| == off + |g.data|
    ensures data == [] ==> at == off + |g.data| || (at == q.pos && off + |g.data| <= q.pos)
  {
    seqNo, data, at := g.seqNo, g.data, off;
    Compare(w.isn + 1 + off, w.isn + 1 + q.pos);
    Compare(w.isn + 1 + q.pos, w.isn + 1 + off);
    if data != [] && SeqLt(seqNo, r.nxt) {
      var cut := Minus(r.nxt, seqNo);
      data := if cut >= |data| then [] else data[cut..];
      assert data != [] ==> data == w.stream[q.pos..off + |g.data|];
      seqNo, at := r.nxt, q.pos;
    }
  }

  /** A FIN at position at is taken exactly when everything before it is there. */
  method TakeFin(r: Receiver, seqNo: nat, len: nat, ghost q: Rcvd, ghost w: Peer, ghost at: int)
    returns (r': Receiver, needAck: bool, ghost q': Rcvd)
    requires RcvInv(r, q, w) && w.fin && seqNo == At(w.isn, at) && Near(at + len, q.pos)
    requires at + len == |w.stream| || r.finReceived
    ensures RcvInv(r', q', w) && q' == q.(pos := q'.pos) && q'.pos >= q.pos
    ensures if r'.finReceived == r.finReceived then r' == r && q' == q
            else r' == r.(finReceived := true, nxt := r'.nxt) && q'.pos == q.pos + 1
    ensures r'.finReceived <==> r.finReceived || q.pos == at + len
    ensures r'.finReceived <==> needAck
  {
    r', needAck, q' := r, r.finReceived, q;
    PlusWrap(w.isn + 1 + at, len);
    Compare(w.isn + 1 + (at + len), w.isn + 1 + q.pos);
    if Plus(seqNo, len) == r.nxt && !r.finReceived {
      PlusWrap(w.isn + 1 + q.pos, 1);
      r', q' := r.(finReceived := true, nxt := Plus(r.nxt, 1)), q.(pos := q.pos + 1);
      assert w.stream[..q.pos] == w.stream;
      needAck := true;
    }
  }

  /** An acceptable segment: what is already there is cut off, new data is taken, and the FIN once
      everything before it is there. */
  method TakeSegment(r: Receiver, open: bool, g: Segment, ghost q: Rcvd, ghost w: Peer, ghost off: int)
    returns (r': Receiver, needAck: bool, ghost q': Rcvd)
    requires RcvInv(r, q, w) && open == !r.finReceived
    requires SegOk(g, off, w.isn, w.stream, w.fin) && !g.syn && Fresh(off, q.pos) && off <= q.pos + 0x1_0000
    ensures RcvInv(r', q', w) && q'.taken == q.taken && q'.pos >= q.pos && (r.finReceived ==> r'.finReceived)
    ensures open && off <= q.pos ==> q'.pos >= Min(off + |g.data|, q.pos + RCVBUF - |r.rbuf|)
    ensures open && off <= q.pos && off + |g.data| <= q.pos + RCVBUF - |r.rbuf| && g.fin ==> r'.finReceived
    ensures r'.finReceived && !r.finReceived ==> g.fin
    ensures g.data != [] || q'.pos != q.pos ==> needAck
    ensures Took(open, r, q, g, off, r', q', needAck)
  {
    var seqNo, data;
    ghost var at;
    seqNo, data, at := Trim(r, g, q, w, off);
    r', needAck, q' := r, g.data != [], q;
    var fin := g.fin;
    if data != [] {
      var whole;
      r', whole, q' := TakeData(r, open, seqNo, data, q, w, at);
      fin := fin && whole;
      needAck := true;
    }
    if fin {
      var ack;
      r', ack, q' := TakeFin(r', seqNo, |data|, q', w, at);
      needAck := needAck || ack;
    }
  }
}
