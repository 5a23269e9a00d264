/** The kernel's emulated write cache: unflushed writes wait in a fixed pool of pages; a full
    pool writes its oldest block early; a crash point keeps what its policy says. */
module BlkCache {
  import opened VolatileDisk

  const IO_MAX := 8

  /** A block as the device transfers it: its first and its second half. */
  datatype Content<H> = Content(lo: H, hi: H)

  datatype Entry = Entry(blk: nat, page: nat)

  datatype Result = Ok | Invalid | IoError

  /** What a crash point does with the cached writes. */
  datatype Policy = LoseAll | LoseNone | LoseTorn | LoseReorder

  function Torn<H>(new_: Content<H>, old_: Content<H>): Content<H> {
    Content(new_.lo, old_.hi)
  }

  /** No number occurs twice. */
  ghost predicate Once(s: multiset<nat>) {
    forall x :: s[x] <= 1
  }

  function Pages(cache: seq<Entry>): (r: seq<nat>)
    ensures |r| == |cache|
  {
    seq(|cache|, i requires 0 <= i < |cache| => cache[i].page)
  }

  ghost predicate PoolKey(k: nat, cache: seq<Entry>, free: seq<nat>, pool: seq<nat>) {
    true
  }

  /** Every page of the pool is in exactly one place: it holds a cached block or it is free.  (Behind
      a key, so that the verifier unfolds it only where a proof asks for it.) */
  ghost predicate PoolOk(cache: seq<Entry>, free: seq<nat>, pool: seq<nat>) {
    forall k {:trigger PoolKey(k, cache, free, pool)} :: PoolKey(k, cache, free, pool) ==>
      multiset(Pages(cache)) + multiset(free) == multiset(pool) && Once(multiset(pool))
  }

  lemma PoolAfterDrop(cache: seq<Entry>, free: seq<nat>, pool: seq<nat>)
    requires cache != [] && PoolOk(cache, free, pool)
    ensures PoolOk(cache[1..], free + [cache[0].page], pool)
  {
    assert PoolKey(0, cache, free, pool);
    assert Pages(cache) == [cache[0].page] + Pages(cache[1..]);
  }

  lemma PoolAfterTake(cache: seq<Entry>, free: seq<nat>, pool: seq<nat>, b: nat)
    requires free != [] && PoolOk(cache, free, pool)
    ensures PoolOk(cache + [Entry(b, free[|free| - 1])], free[..|free| - 1], pool)
    ensures forall e <- cache :: e.page != free[|free| - 1]
  {
    assert PoolKey(0, cache, free, pool);
    var k := |free| - 1;
    assert Pages(cache + [Entry(b, free[k])]) == Pages(cache) + [free[k]];
    assert free == free[..k] + [free[k]];
    assert multiset(pool)[free[k]] <= 1 && free[k] in multiset(free);
    forall e <- cache ensures e.page != free[k] {
      assert e.page in Pages(cache) by {
        var i :| 0 <= i < |cache| && cache[i] == e;
        assert Pages(cache)[i] == e.page;
      }
    }
  }

  lemma PoolSize(cache: seq<Entry>, free: seq<nat>, pool: seq<nat>)
    requires PoolOk(cache, free, pool)
    ensures |cache| + |free| == |pool|
  {
    assert PoolKey(0, cache, free, pool);
    assert |multiset(Pages(cache)) + multiset(free)| == |multiset(pool)|;
  }

  lemma PoolAllFree(cache: seq<Entry>, free: seq<nat>, pool: seq<nat>)
    requires PoolOk(cache, free, pool)
    ensures PoolOk([], free + Pages(cache), pool)
  {
    assert PoolKey(0, cache, free, pool);
    assert Pages([]) == [];
  }

  /** The cached blocks as unflushed writes, oldest first. */
  function Pending<H>(cache: seq<Entry>, mem: map<nat, Content<H>>): (r: seq<CachedWrite<Content<H>>>)
    requires forall e <- cache :: e.page in mem
    ensures |r| == |cache|
    ensures forall i | 0 <= i < |r| :: r[i] == CachedWrite(cache[i].blk, mem[cache[i].page])
  {
    seq(|cache|, i requires 0 <= i < |cache| => CachedWrite(cache[i].blk, mem[cache[i].page]))
  }

  // ---- what the cache does to the disk ----

  /** One more cached write; a full cache first lets its oldest block go to the device. */
  ghost function Push<T>(d: Disk<T>, w: CachedWrite<T>, cap: nat): (d': Disk<T>)
    requires InRange(d) && w.blk < |d.durable| && cap > 0
    ensures InRange(d') && |d'.durable| == |d.durable|
  {
    if |d.pending| < cap then d.(pending := d.pending + [w])
    else
      var o := d.pending[0];
      Disk(d.durable[o.blk := o.data], d.pending[1..] + [w])
  }

  ghost function PushAll<T>(d: Disk<T>, blk: nat, data: seq<T>, cap: nat): (d': Disk<T>)
    requires InRange(d) && blk + |data| <= |d.durable| && cap > 0
    ensures InRange(d') && |d'.durable| == |d.durable|
    decreases |data|
  {
    if data == [] then d
    else
      var k := |data| - 1;
      Push(PushAll(d, blk, data[..k], cap), CachedWrite(blk + k, data[k]), cap)
  }

  lemma PushNext<T>(d: Disk<T>, blk: nat, data: seq<T>, i: nat, cap: nat)
    requires InRange(d) && blk + |data| <= |d.durable| && cap > 0 && i < |data|
    ensures PushAll(d, blk, data[..i + 1], cap) ==
                Push(PushAll(d, blk, data[..i], cap), CachedWrite(blk + i, data[i]), cap)
  {
    assert data[..i + 1][..i] == data[..i];
  }

  lemma PushWrote<T>(d: Disk<T>, w: CachedWrite<T>, cap: nat, torn: T)
    requires InRange(d) && w.blk < |d.durable| && cap > 0
    ensures var d' := Push(d, w, cap);
      Wrote(View(d), Maybe(d, torn), View(d'), Maybe(d', torn), w.blk, [w.data], torn, true)
  {
    var d1 := d;
    if |d.pending| >= cap {
      var o := d.pending[0];
      VolatileDisk.EvictOldest(d.durable, d.pending, torn);
      d1 := Disk(d.durable[o.blk := o.data], d.pending[1..]);
    }
    assert (d1.pending + [w])[..|d1.pending|] == d1.pending;
  }

  lemma WroteLast<T>(v0: seq<T>, m0: seq<set<T>>, v1: seq<T>, m1: seq<set<T>>, v2: seq<T>, m2: seq<set<T>>,
                     blk: nat, data: seq<T>, torn: T)
    requires |m0| == |v0| && |m1| == |v1| && data != []
    requires Wrote(v0, m0, v1, m1, blk, data[..|data| - 1], torn, true)
    requires Wrote(v1, m1, v2, m2, blk + |data| - 1, [data[|data| - 1]], torn, true)
    ensures Wrote(v0, m0, v2, m2, blk, data, torn, true)
  {
    assert data[|data| - 1..] == [data[|data| - 1]];
    WroteParts(v0, m0, v1, m1, v2, m2, blk, data, |data| - 1, torn, true);
  }

  lemma PushMoreWrote<T>(v: seq<T>, m: seq<set<T>>, d: Disk<T>, blk: nat, data: seq<T>, cap: nat, torn: T)
    requires InRange(d) && blk + |data| <= |d.durable| && cap > 0 && data != [] && |m| == |v|
    requires Wrote(v, m, View(d), Maybe(d, torn), blk, data[..|data| - 1], torn, true)
    ensures var d' := Push(d, CachedWrite(blk + |data| - 1, data[|data| - 1]), cap);
            Wrote(v, m, View(d'), Maybe(d', torn), blk, data, torn, true)
  {
    var w := CachedWrite(blk + |data| - 1, data[|data| - 1]);
    PushWrote(d, w, cap, torn);
    WroteLast(v, m, View(d), Maybe(d, torn), View(Push(d, w, cap)), Maybe(Push(d, w, cap), torn), blk, data, torn);
  }

  ghost predicate WroteAs<T>(d: Disk<T>, d': Disk<T>, blk: nat, data: seq<T>, torn: T)
    requires InRange(d) && InRange(d')
  {
    Wrote(View(d), Maybe(d, torn), View(d'), Maybe(d', torn), blk, data, torn, true)
  }

  /** A write through the cache, evictions included, is a write as the disk model has it. */
  lemma {:induction false} PushAllWrote<T>(d: Disk<T>, blk: nat, data: seq<T>, cap: nat, torn: T)
    requires InRange(d) && blk + |data| <= |d.durable| && cap > 0
    ensures WroteAs(d, PushAll(d, blk, data, cap), blk, data, torn)
    decreases |data|
  {
    if data != [] {
      var k := |data| - 1;
      PushAllWrote(d, blk, data[..k], cap, torn);
      PushMoreWrote(View(d), Maybe(d, torn), PushAll(d, blk, data[..k], cap), blk, data, cap, torn);
    }
  }

  /** The blocks on the device after a crash point. */
  ghost function CrashBlocks<H>(d: Disk<Content<H>>, policy: Policy): (r: seq<Content<H>>)
    requires InRange(d)
    ensures |r| == |d.durable|
  {
    var n := |d.pending|;
    if n == 0 then d.durable
    else
      var w := d.pending[n - 1];
      match policy
      case LoseAll => d.durable
      case LoseNone => Overlay(d.durable, d.pending)
      case LoseTorn =>
        var o := Overlay(d.durable, d.pending[..n - 1]);
        o[w.blk := Torn(w.data, o[w.blk])]
      case LoseReorder => d.durable[w.blk := w.data]
  }

  /** What a crash point does with one cached write. */
  function CrashWrite<H>(policy: Policy, blocks: seq<Content<H>>, b: nat, x: Content<H>, newest: bool): seq<Content<H>>
    requires b < |blocks|
  {
    if policy == LoseNone || (policy == LoseTorn && !newest) || (policy == LoseReorder && newest) then blocks[b := x]
    else if policy == LoseTorn && newest then blocks[b := Torn(x, blocks[b])]
    else blocks
  }

  /** The crash point has dealt with the first i cached writes. */
  ghost predicate CrashedTo<H>(d: Disk<Content<H>>, policy: Policy, i: nat, blocks: seq<Content<H>>)
    requires InRange(d) && i <= |d.pending|
  {
    blocks == if i == |d.pending| then CrashBlocks(d, policy)
              else if policy in {LoseNone, LoseTorn} then Overlay(d.durable, d.pending[..i]) else d.durable
  }

  lemma CrashNext<H>(d: Disk<Content<H>>, policy: Policy, i: nat, blocks: seq<Content<H>>)
    requires InRange(d) && i < |d.pending| && CrashedTo(d, policy, i, blocks) && |blocks| == |d.durable|
    ensures d.pending[i].blk < |blocks|
    ensures CrashedTo(d, policy, i + 1,
                      CrashWrite(policy, blocks, d.pending[i].blk, d.pending[i].data, i + 1 == |d.pending|))
  {
    assert d.pending[i] in d.pending;
    assert d.pending[..i + 1][..i] == d.pending[..i];
    assert d.pending[..|d.pending|] == d.pending;
  }

  /** A disk of halves, as its user reads the blocks. */
  ghost function Seen<H, T>(d: Disk<Content<H>>, read: Content<H> -> T): (r: Disk<T>)
    ensures InRange(d) ==> InRange(r)
    ensures |r.durable| == |d.durable| && |r.pending| == |d.pending|
  {
    Disk(SeenBlocks(d.durable, read),
         seq(|d.pending|, i requires 0 <= i < |d.pending| => CachedWrite(d.pending[i].blk, read(d.pending[i].data))))
  }

  ghost function SeenBlocks<H, T>(s: seq<Content<H>>, read: Content<H> -> T): (r: seq<T>)
    ensures |r| == |s| && forall i | 0 <= i < |s| :: r[i] == read(s[i])
  {
    seq(|s|, i requires 0 <= i < |s| => read(s[i]))
  }

  /** An ideal checksum: a block torn between two contents reads as one of them or as torn. */
  ghost predicate DetectsTearing<H(!new), T>(read: Content<H> -> T, torn: T) {
    forall x, y :: read(Torn(x, y)) in {read(x), read(y), torn}
  }

  lemma {:induction false} OverlaySurvives<H, T>(d: Disk<Content<H>>, read: Content<H> -> T, torn: T, n: nat)
    requires InRange(d) && n <= |d.pending|
    ensures forall w <- d.pending[..n] :: w.blk < |d.durable|
    ensures forall b | 0 <= b < |d.durable| ::
              read(Overlay(d.durable, d.pending[..n])[b]) in
                Survivors(Seen(d, read).durable, Seen(d, read).pending[..n], torn)[b]
    decreases n
  {
    if n > 0 {
      OverlaySurvives(d, read, torn, n - 1);
      assert d.pending[..n][..n - 1] == d.pending[..n - 1];
      assert Seen(d, read).pending[..n][..n - 1] == Seen(d, read).pending[..n - 1];
    }
  }

  lemma {:induction false} SurvivorsGrow<T>(blocks: seq<T>, writes: seq<CachedWrite<T>>, torn: T)
    requires forall w <- writes :: w.blk < |blocks|
    ensures forall b | 0 <= b < |blocks| :: blocks[b] in Survivors(blocks, writes, torn)[b]
    decreases |writes|
  {
    if writes != [] {
      SurvivorsGrow(blocks, writes[..|writes| - 1], torn);
    }
  }

  /** Every policy of the crash point leaves a disk that the crash model allows. */
  lemma CrashPolicyAllowed<H(!new), T>(d: Disk<Content<H>>, policy: Policy, read: Content<H> -> T, torn: T)
    requires InRange(d) && DetectsTearing(read, torn)
    ensures forall b | 0 <= b < |d.durable| ::
              read(CrashBlocks(d, policy)[b]) in Maybe(Seen(d, read), torn)[b]
  {
    var n := |d.pending|;
    var e := Seen(d, read);
    SurvivorsGrow(e.durable, e.pending, torn);
    OverlaySurvives(d, read, torn, n);
    assert d.pending[..n] == d.pending && e.pending[..n] == e.pending;
    if n > 0 {
      OverlaySurvives(d, read, torn, n - 1);
      SurvivorsGrow(e.durable, e.pending[..n - 1], torn);
    }
  }

  /** Some of the oldest cached writes are on the device, too. */
  ghost predicate WrittenBack<T>(d: Disk<T>, blocks: seq<T>)
    requires InRange(d)
  {
    exists n: nat | n <= |d.pending| :: blocks == Overlay(d.durable, d.pending[..n])
  }

  /** The oldest cached write is lost. */
  ghost function Forgot<T>(d: Disk<T>): Disk<T> {
    if d.pending == [] then d else Disk(d.durable, d.pending[1..])
  }

  /** A write that failed at block i: those before it are in the cache, which was full, and the oldest cached
      write, one that had been acknowledged or one of these, is lost. */
  ghost predicate Interrupted<T>(d: Disk<T>, d': Disk<T>, blk: nat, src: seq<T>, size: nat, i: nat)
    requires size > 0 && InRange(d) && blk + |src| <= |d.durable|
  {
    i < |src| && |PushAll(d, blk, src[..i], size).pending| == size && d' == Forgot(PushAll(d, blk, src[..i], size))
  }

  class BlkDev<H(==)> {
    var blocks: seq<Content<H>>      // what is on the device
    var cache: seq<Entry>            // unflushed writes, oldest first
    var free: seq<nat>               // pages that hold no cached block, used as a stack
    var mem: map<nat, Content<H>>    // contents of the pages
    const pool: seq<nat>
    const cached: bool
    const readOnly: bool

    /** The device with an empty cache and the pages of its pool. */
    constructor (blocks: seq<Content<H>>, pool: seq<nat>, cached: bool, readOnly: bool)
      requires Once(multiset(pool)) && pool != []
      ensures Valid() && this.blocks == blocks && cache == [] && this.pool == pool && this.cached == cached
    {
      this.blocks, this.pool, this.cached, this.readOnly := blocks, pool, cached, readOnly;
      cache, free, mem := [], pool, map[];
      assert Pages([]) + pool == pool;
    }

    /** Every page of the pool is free or holds one cached block. */
    ghost predicate Valid()
      reads this
    {
      && (forall e <- cache :: e.blk < |blocks| && e.page in mem)
      && PoolOk(cache, free, pool) && pool != []
    }

    /** The device as a disk with a volatile cache. */
    ghost function AsDisk(): (d: Disk<Content<H>>)
      reads this
      requires Valid()
      ensures InRange(d)
    {
      Disk(blocks, Pending(cache, mem))
    }

    /** Reads blocks from the device, then overlays the cached ones, oldest first. */
    method Read(blk: nat, count: nat) returns (st: Result, data: seq<Content<H>>)
      requires Valid()
      ensures st == if count == 0 || count > IO_MAX || blk + count > |blocks| then Invalid else Ok
      ensures st == Ok ==> data == View(AsDisk())[blk..blk + count]
    {
      if count == 0 || count > IO_MAX || blk + count > |blocks| {
        return Invalid, [];
      }
      data := blocks[blk..blk + count];
      ghost var d := AsDisk();
      var c := 0;
      while c < |cache|
        invariant 0 <= c <= |cache| && |data| == count
        invariant data == Overlay(d.durable, d.pending[..c])[blk..blk + count]
      {
        assert d.pending[..c + 1][..c] == d.pending[..c];
        var e := cache[c];
        assert e in cache;
        if blk <= e.blk < blk + count {
          data := data[e.blk - blk := mem[e.page]];
        }
        c := c + 1;
      }
      assert d.pending[..c] == d.pending;
      st := Ok;
    }

    /** The first pending write goes out. The entry is gone afterwards whatever the device answered. */
    method EvictOldest() returns (ok: bool)
      requires Valid() && cache != []
      modifies this`blocks, this`cache, this`free
      ensures Valid() && |blocks| == old(|blocks|) && |free| == old(|free|) + 1
      ensures cache == old(cache)[1..] && mem == old(mem)
      ensures ok ==> var d := old(AsDisk());
                AsDisk() == Disk(d.durable[d.pending[0].blk := d.pending[0].data], d.pending[1..])
      ensures !ok ==> AsDisk() == Forgot(old(AsDisk()))
    {
      ok := *;
      var e := cache[0];
      assert e in cache;
      ghost var ws := AsDisk().pending;
      VolatileDisk.EvictOldest(blocks, ws, blocks[e.blk]);
      PoolAfterDrop(cache, free, pool);
      if ok {
        blocks := blocks[e.blk := mem[e.page]];
      }
      free, cache := free + [e.page], cache[1..];
      assert Pending(cache, mem) == ws[1..];
    }

    /** Puts one block into a free page at the end of the cache. */
    method Append(b: nat, x: Content<H>)
      requires Valid() && b < |blocks| && free != []
      modifies this`cache, this`free, this`mem
      ensures Valid() && AsDisk() == Disk(blocks, old(AsDisk()).pending + [CachedWrite(b, x)])
    {
      ghost var ws := AsDisk().pending;
      var page := free[|free| - 1];
      PoolAfterTake(cache, free, pool, b);
      cache, free, mem := cache + [Entry(b, page)], free[..|free| - 1], mem[page := x];
      assert Pending(cache, mem) == ws + [CachedWrite(b, x)];
      assert Pending(cache, mem)[..|ws|] == ws;
    }

    /** One block into the cache, making room first if there is none. */
    method PushBlock(b: nat, x: Content<H>) returns (ok: bool)
      requires Valid() && b < |blocks|
      modifies this
      ensures Valid() && |blocks| == old(|blocks|)
      ensures ok ==> AsDisk() == Push(old(AsDisk()), CachedWrite(b, x), |pool|)
      ensures !ok ==> |old(AsDisk()).pending| == |pool| && AsDisk() == Forgot(old(AsDisk()))
    {
      PoolSize(cache, free, pool);
      ok := true;
      if free == [] {
        ok := EvictOldest();
      }
      if ok {
        Append(b, x);
      }
    }

    /** Block i of a write. */
    method PushOne(blk: nat, src: seq<Content<H>>, i: nat, ghost d: Disk<Content<H>>) returns (ok: bool)
      requires Valid() && InRange(d) && |blocks| == |d.durable| && blk + |src| <= |blocks| && i < |src|
      requires AsDisk() == PushAll(d, blk, src[..i], |pool|)
      modifies this
      ensures Valid() && |blocks| == old(|blocks|)
      ensures if ok then AsDisk() == PushAll(d, blk, src[..i + 1], |pool|)
              else Interrupted(d, AsDisk(), blk, src, |pool|, i)
    {
      PushNext(d, blk, src, i, |pool|);
      ok := PushBlock(blk + i, src[i]);
    }

    method CacheWrite(blk: nat, src: seq<Content<H>>) returns (ok: bool)
      requires Valid() && blk + |src| <= |blocks|
      modifies this
      ensures Valid() && |blocks| == old(|blocks|)
      ensures ok ==> AsDisk() == PushAll(old(AsDisk()), blk, src, |pool|)
      ensures !ok ==> exists i: nat :: Interrupted(old(AsDisk()), AsDisk(), blk, src, |pool|, i)
    {
      ghost var d := AsDisk();
      var i := 0;
      while i < |src|
        invariant 0 <= i <= |src| && Valid() && |blocks| == |d.durable|
        invariant AsDisk() == PushAll(d, blk, src[..i], |pool|)
      {
        ok := PushOne(blk, src, i, d);
        if !ok {
          return;
        }
        i := i + 1;
      }
      assert src[..i] == src;
      ok := true;
    }

    /** Writes go to the cache, block by block, or straight to the device without one. */
    method Write(blk: nat, src: seq<Content<H>>) returns (st: Result)
      requires Valid() && (!cached ==> cache == [])
      modifies this
      ensures Valid() && |blocks| == old(|blocks|) && (!cached ==> cache == [])
      ensures st == Invalid <==> |src| == 0 || |src| > IO_MAX || blk + |src| > |blocks|
      ensures st == Invalid ==> unchanged(this)
      ensures st == Ok && cached ==> AsDisk() == PushAll(old(AsDisk()), blk, src, |pool|)
      ensures st == Ok && !cached ==> blocks == old(blocks)[..blk] + src + old(blocks)[blk + |src|..]
      ensures st == IoError && (readOnly || !cached) ==> unchanged(this)
      ensures st == IoError && cached && !readOnly ==>
                exists i: nat :: Interrupted(old(AsDisk()), AsDisk(), blk, src, |pool|, i)
    {
      if |src| == 0 || |src| > IO_MAX || blk + |src| > |blocks| {
        return Invalid;
      }
      if readOnly {
        return IoError;
      }
      var ok;
      if cached {
        ok := CacheWrite(blk, src);
      } else {
        ok := *;
        if ok {
          blocks := blocks[..blk] + src + blocks[blk + |src|..];
        }
      }
      st := if ok then Ok else IoError;
    }

    /** Writes the cached blocks to the device in order, until one write fails. */
    method WriteBack() returns (ok: bool)
      requires Valid()
      modifies this`blocks
      ensures Valid() && View(AsDisk()) == old(View(AsDisk()))
      ensures ok ==> blocks == old(View(AsDisk()))
      ensures WrittenBack(old(AsDisk()), blocks)
    {
      ghost var d := AsDisk();
      var i := 0;
      while i < |cache|
        invariant 0 <= i <= |cache| && Valid() && |blocks| == |d.durable|
        invariant blocks == Overlay(d.durable, d.pending[..i])
      {
        ok := *;
        if !ok {
          OverlayTwice(d.durable, d.pending, i);
          return;
        }
        assert cache[i] in cache;
        assert d.pending[..i + 1][..i] == d.pending[..i];
        blocks := blocks[cache[i].blk := mem[cache[i].page]];
        i := i + 1;
      }
      assert d.pending[..i] == d.pending;
      OverlayTwice(d.durable, d.pending, i);
      ok := true;
    }

    /** Writes the cached blocks to the device in order and frees their pages. */
    method Flush() returns (st: Result)
      requires Valid()
      modifies this`blocks, this`cache, this`free
      ensures Valid() && st in {Ok, IoError}
      ensures View(AsDisk()) == old(View(AsDisk()))
      ensures st == Ok ==> AsDisk() == Disk(old(View(AsDisk())), []) && |free| == |pool|
      ensures st == IoError ==> AsDisk() == Disk(old(View(AsDisk())), []) ||
                                (WrittenBack(old(AsDisk()), blocks) && AsDisk() == old(AsDisk()).(durable := blocks))
    {
      var ok := WriteBack();
      if !ok {
        return IoError;
      }
      PoolAllFree(cache, free, pool);
      free, cache := free + Pages(cache), [];
      PoolSize(cache, free, pool);
      ok := *;
      st := if ok then Ok else IoError;
    }

    /** Power fails: the policy decides which unflushed writes reach the device. */
    method Crash(policy: Policy)
      requires Valid()
      modifies this`blocks
      ensures Valid() && blocks == CrashBlocks(old(AsDisk()), policy)
    {
      ghost var d := AsDisk();
      var i := 0;
      while i < |cache|
        invariant 0 <= i <= |cache| && Valid() && |blocks| == |d.durable| && CrashedTo(d, policy, i, blocks)
      {
        CrashNext(d, policy, i, blocks);
        blocks := CrashWrite(policy, blocks, cache[i].blk, mem[cache[i].page], i + 1 == |cache|);
        i := i + 1;
      }
    }
  }

  /** A failed eviction drops the oldest write although it was acknowledged.  Reads stay the same
      exactly if a newer cached write covers its block or the device held the same data. */
  lemma FailedEvictionLoses<T>(blocks: seq<T>, writes: seq<CachedWrite<T>>)
    requires writes != [] && forall w <- writes :: w.blk < |blocks|
    ensures Overlay(blocks, writes[1..]) == Overlay(blocks, writes) <==>
              (exists w <- writes[1..] :: w.blk == writes[0].blk) || blocks[writes[0].blk] == writes[0].data
  {
    var w, rest := writes[0], writes[1..];
    var after := blocks[w.blk := w.data];
    VolatileDisk.EvictOldest(blocks, writes, w.data);
    forall b | 0 <= b < |blocks| && b != w.blk ensures Overlay(blocks, rest)[b] == Overlay(after, rest)[b] {
      OverlayAt(after, blocks, rest, b);
      OverlayAt(blocks, after, rest, b);
    }
    OverlayAt(after, blocks, rest, w.blk);
    OverlayAt(blocks, after, rest, w.blk);
  }

  /** Writing a prefix of the cached blocks early changes no read. */
  lemma {:induction false} OverlayTwice<T>(blocks: seq<T>, writes: seq<CachedWrite<T>>, n: nat)
    requires (forall w <- writes :: w.blk < |blocks|) && n <= |writes|
    ensures Overlay(Overlay(blocks, writes[..n]), writes) == Overlay(blocks, writes)
    decreases |writes|
  {
    if n == |writes| {
      assert writes[..n] == writes;
      OverlaySelf(blocks, writes);
    } else {
      var k := |writes| - 1;
      OverlayTwice(blocks, writes[..k], n);
      assert writes[..k][..n] == writes[..n];
    }
  }

  lemma {:induction false} OverlaySelf<T>(blocks: seq<T>, writes: seq<CachedWrite<T>>)
    requires forall w <- writes :: w.blk < |blocks|
    ensures Overlay(Overlay(blocks, writes), writes) == Overlay(blocks, writes)
  {
    forall b | 0 <= b < |blocks| ensures Overlay(Overlay(blocks, writes), writes)[b] == Overlay(blocks, writes)[b] {
      OverlayAt(blocks, Overlay(blocks, writes), writes, b);
    }
  }

  lemma {:induction false} OverlayAt<T>(x: seq<T>, y: seq<T>, writes: seq<CachedWrite<T>>, b: nat)
    requires |y| == |x| && b < |x| && forall w <- writes :: w.blk < |x|
    ensures (exists w <- writes :: w.blk == b) ==> Overlay(y, writes)[b] == Overlay(x, writes)[b]
    ensures (forall w <- writes :: w.blk != b) ==> Overlay(y, writes)[b] == y[b]
    decreases |writes|
  {
    if writes != [] {
      OverlayAt(x, y, writes[..|writes| - 1], b);
      assert writes == writes[..|writes| - 1] + [writes[|writes| - 1]];
    }
  }
}
