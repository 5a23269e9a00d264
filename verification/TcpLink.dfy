/** Two ends of a connection over a network that loses, repeats, reorders and delays: every segment
    ever sent stays available, and any of them may arrive at any time within its lifetime. */
module TcpLink {
  import opened SeqNum
  import opened TcpSender
  import opened TcpReceiver
  import opened TcpSteps
  import opened TcpConn

  /** One end x against the other end y; wire holds all that x ever sent. */
  ghost predicate Half(x: Conn, y: Conn, wire: seq<Packet>)
    reads x, y
  {
    x.Valid(y.Me()) && PacketsOk(wire, x.Me(), x.irs, x.q.pos) && x.o.una <= y.q.pos
  }

  /** What was true on the wire stays true. */
  lemma WireGrown(wire: seq<Packet>, me: Peer, irs: nat, pos: int, me': Peer, irs': nat, pos': int)
    requires PacketsOk(wire, me, irs, pos) && Grown(me, me') && pos <= pos' && (pos >= 0 ==> irs' == irs)
    ensures PacketsOk(wire, me', irs', pos')
  {
    forall p <- wire ensures PacketOk(p, me', irs', pos') {
      assert PacketOk(p, me, irs, pos);
      if p.seg.data != [] {
        assert me.stream[p.off..p.off + |p.seg.data|] == me'.stream[p.off..p.off + |p.seg.data|];
      }
    }
  }

  /** The other end stays valid while this one's stream grows. */
  lemma OtherGrown(y: Conn, w: Peer, w': Peer)
    requires y.Valid(w) && Grown(w, w')
    ensures y.Valid(w')
  {
    assert RcvKey(0, y.rcv, y.q, w);
    if y.q.pos >= 0 {
      RcvGrown(y.rcv, y.q, w, w');
    }
  }

  class Link {
    const a: Conn
    const b: Conn
    ghost var wireA: seq<Packet>
    ghost var wireB: seq<Packet>

    ghost predicate Valid()
      reads this, a, b
    {
      a != b && Half(a, b, wireA) && Half(b, a, wireB)
    }

    function End(left: bool): Conn {
      if left then a else b
    }

    ghost function Wire(left: bool): seq<Packet>
      reads this
    {
      if left then wireA else wireB
    }

    constructor (issA: nat, issB: nat)
      requires issA < 0x1_0000_0000 && issB < 0x1_0000_0000
      ensures Valid() && fresh(a) && fresh(b) && a.iss == issA && b.iss == issB && a.st == b.st == Listen
    {
      a := new Conn(issA, Peer(issB, [], false));
      b := new Conn(issB, Peer(issA, [], false));
      wireA, wireB := [], [];
    }

    /** Only one end has acted, and only its wire has grown, by ps. */
    twostate predicate Acted(left: bool, ps: seq<Packet>)
      reads this, a, b
    {
      && Wire(left) == old(Wire(left)) + ps && Wire(!left) == old(Wire(!left))
      && End(!left).Look() == old(End(!left).Look())
    }

    /** The end that acted has put more on its wire. */
    ghost method Sent(left: bool, ps: seq<Packet>, me: Peer, irs: nat, pos: int)
      requires a != b && PacketsOk(Wire(left), me, irs, pos)
      requires PacketsOk(ps, End(left).Me(), End(left).irs, End(left).q.pos)
      requires Grown(me, End(left).Me()) && pos <= End(left).q.pos && (pos >= 0 ==> End(left).irs == irs)
      requires End(!left).Valid(me) && End(left).Valid(End(!left).Me())
      requires PacketsOk(Wire(!left), End(!left).Me(), End(!left).irs, End(!left).q.pos)
      requires End(left).o.una <= End(!left).q.pos && End(!left).o.una <= End(left).q.pos
      modifies this
      ensures Valid() && Wire(left) == old(Wire(left)) + ps && Wire(!left) == old(Wire(!left))
    {
      var x, y := End(left), End(!left);
      WireGrown(Wire(left), me, irs, pos, x.Me(), x.irs, x.q.pos);
      OtherGrown(y, me, x.Me());
      if left {
        wireA := wireA + ps;
      } else {
        wireB := wireB + ps;
      }
    }

    method Open(left: bool, now: nat) returns (segs: seq<Segment>, ghost ps: seq<Packet>)
      requires Valid() && End(left).st == Listen
      modifies this, a, b
      ensures Valid() && End(left).st == SynSent && Carry(segs, ps) && Acted(left, ps)
    {
      var x := End(left);
      ghost var me, irs, pos := x.Me(), x.irs, x.q.pos;
      segs, ps := x.Connect(now, End(!left).Me());
      Sent(left, ps, me, irs, pos);
    }

    /** The i-th segment the other end ever sent, however often it arrived before. */
    method Deliver(left: bool, g: Segment, now: nat, ghost i: nat) returns (segs: seq<Segment>, ghost ps: seq<Packet>)
      requires Valid() && i < |Wire(!left)| && g == Wire(!left)[i].seg
      requires End(left).Young(Wire(!left)[i])
      modifies this, a, b
      ensures Valid() && a.Me() == old(a.Me()) && b.Me() == old(b.Me())
      ensures a.q.taken == old(a.q.taken) && b.q.taken == old(b.q.taken)
      ensures Carry(segs, ps) && Acted(left, ps)
      ensures var x, p := End(left), old(Wire(!left))[i];
              && Handled(x.iss, old(x.Look()), g, p.off, p.ack, now, x.Look(), ps)
              && Effect(old(x.Look()), g, p.off, p.ack, x.Look(), ps)
    {
      var x := End(left);
      ghost var me, irs, pos, p := x.Me(), x.irs, x.q.pos, Wire(!left)[i];
      assert PacketOk(p, End(!left).Me(), End(!left).irs, End(!left).q.pos);
      segs, ps := x.Input(g, now, End(!left).Me(), p.off, p.ack);
      Sent(left, ps, me, irs, pos);
    }

    /** A forged or stray reset can end a connection but not corrupt it. */
    method Reset(left: bool, seqNo: nat, hasAck: bool, ack: nat)
      requires Valid()
      modifies this, a, b
      ensures Valid() && a.Me() == old(a.Me()) && b.Me() == old(b.Me())
      ensures a.q == old(a.q) && b.q == old(b.q) && Acted(left, [])
      ensures var x := End(left);
              x.Look() == if ResetCounts(old(x.Look()), x.iss, seqNo, hasAck, ack) then Broken(old(x.Look()))
                          else old(x.Look())
    {
      var x := End(left);
      ghost var me, irs, pos := x.Me(), x.irs, x.q.pos;
      x.Reset(seqNo, hasAck, ack, End(!left).Me());
      Sent(left, [], me, irs, pos);
    }

    method Tick(left: bool, now: nat, linkUp: bool) returns (segs: seq<Segment>, ghost ps: seq<Packet>)
      requires Valid()
      modifies this, a, b
      ensures Valid() && a.Me() == old(a.Me()) && b.Me() == old(b.Me())
      ensures a.q == old(a.q) && b.q == old(b.q) && Carry(segs, ps) && Acted(left, ps)
      ensures var x := End(left); Ticked(old(x.Look()), TimeoutCode(old(x.st), linkUp), now, x.Look(), ps)
    {
      var x := End(left);
      ghost var me, irs, pos := x.Me(), x.irs, x.q.pos;
      segs, ps := x.Tick(now, linkUp, End(!left).Me());
      Sent(left, ps, me, irs, pos);
    }

    method Write(left: bool, data: Bytes, now: nat)
      returns (code: nat, n: nat, segs: seq<Segment>, ghost ps: seq<Packet>)
      requires Valid()
      modifies this, a, b
      ensures Valid() && n <= |data| && End(!left).Me() == old(End(!left).Me()) && a.q == old(a.q) && b.q == old(b.q)
      ensures End(left).o.stream == old(End(left).o.stream) + data[..n]
      ensures (code == 0 && data != [] ==> n > 0) && Carry(segs, ps) && Acted(left, ps)
      ensures Written(old(End(left).Look()), data[..n], now, End(left).Look(), ps)
    {
      var x := End(left);
      ghost var me, irs, pos := x.Me(), x.irs, x.q.pos;
      code, n, segs, ps := x.Write(data, now, End(!left).Me());
      Sent(left, ps, me, irs, pos);
    }

    method Shutdown(left: bool, now: nat) returns (segs: seq<Segment>, ghost ps: seq<Packet>)
      requires Valid()
      modifies this, a, b
      ensures Valid() && End(!left).Me() == old(End(!left).Me()) && a.q == old(a.q) && b.q == old(b.q)
      ensures End(left).o.stream == old(End(left).o.stream) && Carry(segs, ps) && Acted(left, ps)
    {
      var x := End(left);
      ghost var me, irs, pos := x.Me(), x.irs, x.q.pos;
      segs, ps := x.Shutdown(now, End(!left).Me());
      Sent(left, ps, me, irs, pos);
    }

    /** A read returns the next bytes the other end wrote; 0, unless no bytes were asked for, means
        that all it ever wrote and will write has been read. */
    method Read(left: bool, cap: nat, now: nat)
      returns (n: int, data: Bytes, segs: seq<Segment>, ghost ps: seq<Packet>)
      requires Valid()
      modifies this, a, b
      ensures Valid() && a.Me() == old(a.Me()) && b.Me() == old(b.Me()) && End(!left).q == old(End(!left).q)
      ensures End(left).q.taken == old(End(left).q.taken) + data <= End(!left).o.stream
      ensures n == 0 && cap > 0 ==> End(!left).snd.finQueued && End(left).q.taken == End(!left).o.stream
      ensures Carry(segs, ps) && Acted(left, ps) && Fetched(old(End(left).Look()), |data|, now, End(left).Look(), ps)
    {
      var x := End(left);
      ghost var me, irs, pos := x.Me(), x.irs, x.q.pos;
      n, data, segs, ps := x.Read(cap, now, End(!left).Me());
      Sent(left, ps, me, irs, pos);
    }

    // ---- what holds in every state that these steps reach ----

    /** What an end has received is a prefix of what the other wrote, and all of it once the FIN came;
        what was acknowledged has been received, and an acknowledged FIN means that all was. */
    lemma Delivered(left: bool)
      requires Valid()
      ensures var x, y := End(left), End(!left);
              && x.q.taken + x.rcv.rbuf <= y.o.stream
              && (x.rcv.finReceived ==> y.snd.finQueued && x.q.taken + x.rcv.rbuf == y.o.stream)
              && 0 <= Base(y.o) <= |y.o.stream| && y.o.stream[..Base(y.o)] <= x.q.taken + x.rcv.rbuf
              && (y.o.una == |y.o.stream| + 1 ==> x.rcv.finReceived)
    {
      var x, y := End(left), End(!left);
      assert x.Valid(y.Me()) && y.o.una <= x.q.pos && RcvKey(0, x.rcv, x.q, y.Me());
      if x.q.pos >= 0 {
        assert RcvInv(x.rcv, x.q, y.Me());
      }
    }

    /** Both streams are complete when an end has reached TIME_WAIT. */
    lemma CloseComplete(left: bool)
      requires Valid() && End(left).st == TimeWait
      ensures var x, y := End(left), End(!left);
              && x.q.taken + x.rcv.rbuf == y.o.stream && y.snd.finQueued
              && y.q.taken + y.rcv.rbuf == x.o.stream && y.rcv.finReceived
    {
      OpenSnd(End(left).st, End(left).snd, End(left).o, End(left).iss);
      Delivered(left);
      Delivered(!left);
    }
  }
}
