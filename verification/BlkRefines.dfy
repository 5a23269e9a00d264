/** The write cache, as long as no request fails, is the disk with a volatile cache that the store is built
    on: its reads, writes, flushes and crash points are among those the model of that disk allows. */
module BlkRefines {
  import opened VolatileDisk
  import opened BlkCache

  lemma {:induction false} SeenOverlay<H, T>(d: Disk<Content<H>>, read: Content<H> -> T, n: nat)
    requires InRange(d) && n <= |d.pending|
    ensures SeenBlocks(Overlay(d.durable, d.pending[..n]), read) ==
                Overlay(Seen(d, read).durable, Seen(d, read).pending[..n])
    decreases n
  {
    if n > 0 {
      SeenOverlay(d, read, n - 1);
      assert d.pending[..n][..n - 1] == d.pending[..n - 1];
      assert Seen(d, read).pending[..n][..n - 1] == Seen(d, read).pending[..n - 1];
    }
  }

  /** What a read of the cache gives is what the disk shows. */
  lemma ReadRefines<H, T>(d: Disk<Content<H>>, read: Content<H> -> T)
    requires InRange(d)
    ensures SeenBlocks(View(d), read) == View(Seen(d, read))
  {
    SeenOverlay(d, read, |d.pending|);
    assert d.pending[..|d.pending|] == d.pending && Seen(d, read).pending[..|d.pending|] == Seen(d, read).pending;
  }

  lemma SeenPush<H, T>(d: Disk<Content<H>>, w: CachedWrite<Content<H>>, cap: nat, read: Content<H> -> T)
    requires InRange(d) && w.blk < |d.durable| && cap > 0
    ensures Seen(Push(d, w, cap), read) == Push(Seen(d, read), CachedWrite(w.blk, read(w.data)), cap)
  {
  }

  lemma {:induction false} SeenPushAll<H, T>(d: Disk<Content<H>>, blk: nat, data: seq<Content<H>>, cap: nat,
                                             read: Content<H> -> T)
    requires InRange(d) && blk + |data| <= |d.durable| && cap > 0
    ensures Seen(PushAll(d, blk, data, cap), read) == PushAll(Seen(d, read), blk, SeenBlocks(data, read), cap)
    decreases |data|
  {
    if data == [] {
      assert SeenBlocks(data, read) == [];
    } else {
      var k := |data| - 1;
      SeenPushAll(d, blk, data[..k], cap, read);
      var before, w := PushAll(d, blk, data[..k], cap), CachedWrite(blk + k, data[k]);
      SeenPush(before, w, cap, read);
      SeenLast(data, read);
      PushLast(Seen(d, read), blk, SeenBlocks(data[..k], read), read(data[k]), cap);
    }
  }

  lemma SeenLast<H, T>(data: seq<Content<H>>, read: Content<H> -> T)
    requires data != []
    ensures SeenBlocks(data, read) == SeenBlocks(data[..|data| - 1], read) + [read(data[|data| - 1])]
  {
  }

  lemma PushLast<T>(d: Disk<T>, blk: nat, data: seq<T>, x: T, cap: nat)
    requires InRange(d) && blk + |data| < |d.durable| && cap > 0
    ensures PushAll(d, blk, data + [x], cap) == Push(PushAll(d, blk, data, cap), CachedWrite(blk + |data|, x), cap)
  {
    assert (data + [x])[..|data|] == data;
  }

  /** A write through the cache, with the evictions it causes. */
  lemma WriteRefines<H, T>(d: Disk<Content<H>>, blk: nat, data: seq<Content<H>>, cap: nat, read: Content<H> -> T,
                           torn: T)
    requires InRange(d) && blk + |data| <= |d.durable| && cap > 0
    ensures WroteAs(Seen(d, read), Seen(PushAll(d, blk, data, cap), read), blk, SeenBlocks(data, read), torn)
  {
    SeenPushAll(d, blk, data, cap, read);
    PushAllWrote(Seen(d, read), blk, SeenBlocks(data, read), cap, torn);
  }

  /** A write without a cache. */
  lemma DirectRefines<H, T>(blocks: seq<Content<H>>, blk: nat, data: seq<Content<H>>, read: Content<H> -> T, torn: T)
    requires blk + |data| <= |blocks|
    ensures var after := blocks[..blk] + data + blocks[blk + |data|..];
            WroteAs(Seen(Disk(blocks, []), read), Seen(Disk(after, []), read), blk, SeenBlocks(data, read), torn)
  {
  }

  /** A flush that succeeds. */
  lemma FlushRefines<H, T>(d: Disk<Content<H>>, read: Content<H> -> T, torn: T)
    requires InRange(d)
    ensures var e, e' := Seen(d, read), Seen(Disk(View(d), []), read);
            Flushed(View(e), View(e'), Maybe(e', torn))
  {
    ReadRefines(d, read);
  }

  /** A block that a cached write put on the device early was already a possible survivor. */
  lemma {:induction false} SurvivorsBack<T>(blocks: seq<T>, writes: seq<CachedWrite<T>>, n: nat, torn: T)
    requires (forall w <- writes :: w.blk < |blocks|) && n <= |writes|
    ensures forall b | 0 <= b < |blocks| ::
              Survivors(Overlay(blocks, writes[..n]), writes, torn)[b] <= Survivors(blocks, writes, torn)[b]
    decreases |writes|
  {
    if n == |writes| {
      assert writes[..n] == writes;
      SurvivorsOver(blocks, Overlay(blocks, writes), writes, torn);
      ViewSurvives(blocks, writes, torn);
    } else {
      var k := |writes| - 1;
      SurvivorsBack(blocks, writes[..k], n, torn);
      assert writes[..k][..n] == writes[..n];
    }
  }

  lemma {:induction false} SurvivorsOver<T>(x: seq<T>, y: seq<T>, writes: seq<CachedWrite<T>>, torn: T)
    requires |y| == |x| && forall w <- writes :: w.blk < |x|
    ensures forall b | 0 <= b < |x| :: Survivors(y, writes, torn)[b] <= Survivors(x, writes, torn)[b] + {y[b]}
    decreases |writes|
  {
    if writes != [] {
      SurvivorsOver(x, y, writes[..|writes| - 1], torn);
    }
  }

  /** A flush that fails half way. */
  lemma FailedFlushRefines<H, T>(d: Disk<Content<H>>, blocks: seq<Content<H>>, read: Content<H> -> T, torn: T)
    requires InRange(d) && WrittenBack(d, blocks)
    ensures |blocks| == |d.durable|
    ensures var e, e' := Seen(d, read), Seen(d.(durable := blocks), read);
            Shrunk(View(e), Maybe(e, torn), View(e'), Maybe(e', torn))
  {
    var n: nat :| n <= |d.pending| && blocks == Overlay(d.durable, d.pending[..n]);
    var e := Seen(d, read);
    SeenOverlay(d, read, n);
    OverlayTwice(e.durable, e.pending, n);
    SurvivorsBack(e.durable, e.pending, n, torn);
  }

  /** A crash point, and power back. */
  lemma CrashRefines<H(!new), T>(d: Disk<Content<H>>, policy: Policy, read: Content<H> -> T, torn: T)
    requires InRange(d) && DetectsTearing(read, torn)
    ensures var e := Seen(Disk(CrashBlocks(d, policy), []), read);
            Crashed(Maybe(Seen(d, read), torn), View(e), Maybe(e, torn))
  {
    CrashPolicyAllowed(d, policy, read, torn);
  }
}
