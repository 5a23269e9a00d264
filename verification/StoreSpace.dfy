/** How many blocks a store can have in use, given what has been committed to it. */
module StoreSpace {
  import opened Common
  import opened StoreFormat
  import opened StoreRecovery
  import opened StoreInvariant
  import opened StoreTransaction
  import opened NxStore

  /** The most that one generation can have: its root, and objects of the largest size. */
  const GEN_MAX_BLOCKS: nat := 1 + OBJ_MAX * 8

  /** The blocks that these objects take. */
  ghost function Blocks(c: Contents): nat
    decreases |c|
  {
    if c == map[] then 0
    else
      var n :| n in c;
      NblkFor(|c[n]|) + Blocks(c - {n})
  }

  lemma {:induction false} BlocksOne(c: Contents, n: string)
    requires n in c
    ensures Blocks(c) == NblkFor(|c[n]|) + Blocks(c - {n})
    decreases |c|
  {
    var k: string :| k in c && Blocks(c) == NblkFor(|c[k]|) + Blocks(c - {k});
    if k != n {
      BlocksOne(c - {k}, n);
      BlocksOne(c - {n}, k);
      assert c - {k} - {n} == c - {n} - {k};
    }
  }

  function Extents(objs: seq<Obj>): set<nat> {
    set o, b | o in objs && b in Extent(o) :: b
  }

  lemma ExtentsLast(objs: seq<Obj>)
    requires objs != []
    ensures var k := |objs| - 1; |Extents(objs)| <= |Extents(objs[..k])| + objs[k].nblk
  {
    var k := |objs| - 1;
    assert objs == objs[..k] + [objs[k]];
    assert Extents(objs) == Extents(objs[..k]) + Extent(objs[k]);
    SpanSize(objs[k].blk, objs[k].nblk);
  }

  /** These objects have these contents. */
  ghost predicate Sized(objs: seq<Obj>, c: Contents) {
    && c.Keys == Names(objs) && (forall o <- objs :: o.name in c && o.nblk == NblkFor(|c[o.name]|))
    && forall i, j | 0 <= j < i < |objs| :: objs[j].name != objs[i].name
  }

  lemma {:induction false} ExtentsSize(objs: seq<Obj>, c: Contents)
    requires Sized(objs, c)
    ensures |Extents(objs)| <= Blocks(c)
    decreases |objs|
  {
    if objs != [] {
      var k := |objs| - 1;
      var o, rest := objs[k], objs[..k];
      assert objs == rest + [o];
      assert Names(objs) == Names(rest) + {o.name} && o.name !in Names(rest);
      assert (c - {o.name}).Keys == Names(rest);
      ExtentsSize(rest, c - {o.name});
      BlocksOne(c, o.name);
      ExtentsLast(objs);
    }
  }

  lemma {:induction false} ExtentsAtMost(objs: seq<Obj>)
    requires forall o <- objs :: o.nblk <= 8
    ensures |Extents(objs)| <= |objs| * 8
    decreases |objs|
  {
    if objs != [] {
      ExtentsAtMost(objs[..|objs| - 1]);
      ExtentsLast(objs);
    }
  }

  lemma RootSize(r: Root, blk: nat, c: Contents)
    requires Sized(r.objs, c)
    ensures |RootBlocks(r, blk)| <= 1 + Blocks(c)
  {
    ExtentsSize(r.objs, c);
    assert RootBlocks(r, blk) == {blk} + Extents(r.objs);
  }

  lemma AnyRootSize(r: Root, blk: nat, n: nat)
    requires RootSane(r, n)
    ensures |RootBlocks(r, blk)| <= GEN_MAX_BLOCKS
  {
    forall o <- r.objs ensures o.nblk <= 8 {
      assert ObjShaped(o, r.gen, r.nextOid, n);
    }
    ExtentsAtMost(r.objs);
    assert RootBlocks(r, blk) == {blk} + Extents(r.objs);
  }

  lemma HeldSized(v: seq<Block>, r: Root, n: nat, c: Contents, sum: Checksums)
    requires RootSane(r, n) && Holds(v, r.objs, c, sum)
    ensures Sized(r.objs, c)
  {
    forall o <- r.objs ensures o.nblk == NblkFor(|c[o.name]|) {
      assert ObjShaped(o, r.gen, r.nextOid, n);
    }
  }

  lemma SubsetSize(a: set<nat>, b: set<nat>)
    requires a <= b
    ensures |a| <= |b|
  {
    assert b == a + (b - a);
  }

  /** What a retained generation takes; nothing is known of one that may be lost. */
  ghost function GenSpace(truth: map<nat, Contents>, lost: set<nat>, g: nat): nat {
    if g in truth && g !in lost then 1 + Blocks(truth[g]) else GEN_MAX_BLOCKS
  }

  ghost function RefSpace(truth: map<nat, Contents>, lost: set<nat>, fs: seq<Ref>): nat {
    if fs == [] then 0 else RefSpace(truth, lost, fs[..|fs| - 1]) + GenSpace(truth, lost, fs[|fs| - 1].gen)
  }

  lemma LostSize(v: seq<Block>, n: nat, f: Ref, sum: Checksums)
    ensures |RefUsed(v, n, f, sum)| <= GEN_MAX_BLOCKS
  {
    match LoadRoot(v, n, f, sum)
    case None => SubsetSize(RefUsed(v, n, f, sum), {f.blk});
    case Some(r) =>
      AnyRootSize(r, f.blk, n);
      SubsetSize(RefUsed(v, n, f, sum), RootBlocks(r, f.blk));
  }

  lemma FirmSize(v: seq<Block>, m: seq<set<Block>>, cfg: Config, f: Ref, truth: map<nat, Contents>)
    requires RefFirm(v, m, cfg, f, truth)
    ensures |RefUsed(v, cfg.n, f, cfg.sum)| <= 1 + Blocks(truth[f.gen])
  {
    var r := v[f.blk].root;
    assert LoadRoot(v, cfg.n, f, cfg.sum) == Some(r);
    HeldSized(v, r, cfg.n, truth[f.gen], cfg.sum);
    RootSize(r, f.blk, truth[f.gen]);
    SubsetSize(RefUsed(v, cfg.n, f, cfg.sum), RootBlocks(r, f.blk));
  }

  lemma {:induction false} RefsSize(v: seq<Block>, m: seq<set<Block>>, cfg: Config, truth: map<nat, Contents>,
                                    lost: set<nat>, fs: seq<Ref>)
    requires forall f <- fs | f.gen !in lost :: RefFirm(v, m, cfg, f, truth)
    ensures |RefsUsed(v, cfg.n, fs, cfg.sum)| <= RefSpace(truth, lost, fs)
  {
    if fs != [] {
      var k := |fs| - 1;
      assert forall f <- fs[..k] :: f in fs;
      RefsSize(v, m, cfg, truth, lost, fs[..k]);
      if fs[k].gen in lost {
        LostSize(v, cfg.n, fs[k], cfg.sum);
      } else {
        assert fs[k] in fs;
        FirmSize(v, m, cfg, fs[k], truth);
      }
    }
  }

  lemma TopSize(v: seq<Block>, m: seq<set<Block>>, cfg: Config, g: Gen, c: Contents)
    requires Firm(v, m, cfg, g.root, g.blk, c)
    ensures |Marked(g.root, g.blk, cfg.n)| <= 1 + Blocks(c)
  {
    HeldSized(v, g.root, cfg.n, c, cfg.sum);
    RootSize(g.root, g.blk, c);
    SubsetSize(Marked(g.root, g.blk, cfg.n), RootBlocks(g.root, g.blk));
  }

  lemma GenUsedSize(v: seq<Block>, m: seq<set<Block>>, cfg: Config, g: Gen, truth: map<nat, Contents>, lost: set<nat>,
                    doubt: set<nat>)
    requires GenOk(v, m, cfg, g, truth, lost) && lost <= doubt
    ensures |UsedBlocks(v, cfg.n, g.root, g.blk, cfg.sum)| <=
              2 + (1 + Blocks(truth[g.root.gen])) + RefSpace(truth, doubt, Refs(g.root))
  {
    TopSize(v, m, cfg, g, truth[g.root.gen]);
    forall f <- Refs(g.root) | f.gen !in doubt ensures RefFirm(v, m, cfg, f, truth) {
      assert Has(g.root, lost, f);
    }
    RefsSize(v, m, cfg, truth, doubt, Refs(g.root));
    ThreeSize(Marked(g.root, g.blk, cfg.n), RefsUsed(v, cfg.n, Refs(g.root), cfg.sum));
  }

  lemma ThreeSize(a: set<nat>, b: set<nat>)
    ensures |{0, 1} + a + b| <= 2 + |a| + |b|
  {
    assert |{0, 1} + a| <= 2 + |a|;
  }

  /** The two superblocks, the current generation, and what it retains. */
  lemma UsedSize(v: seq<Block>, m: seq<set<Block>>, cfg: Config, l: Ledger, used: set<nat>, doubt: set<nat>)
    requires Safe(v, m, cfg, l) && InUse(v, cfg, Top(l).root, Top(l).blk, used) && TopLost(l) <= doubt
    ensures Top(l).root.gen in l.truth
    ensures |used| <= 2 + (1 + Blocks(l.truth[Top(l).root.gen])) + RefSpace(l.truth, doubt, Refs(Top(l).root))
    ensures forall f <- Refs(Top(l).root) | f.gen !in doubt :: f.gen in l.truth
  {
    SafeInv(v, m, cfg, l);
    assert UseKey(0, v, used);
    GenUsedSize(v, m, cfg, Top(l), l.truth, TopLost(l), doubt);
    forall f <- Refs(Top(l).root) | f.gen !in doubt ensures f.gen in l.truth {
      assert Has(Top(l).root, TopLost(l), f);
      assert RefFirm(v, m, cfg, f, l.truth);
    }
  }
}
