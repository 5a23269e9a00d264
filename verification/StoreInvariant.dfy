/** What the disk of a store satisfies at every moment of every run, whatever is still cached. */
module StoreInvariant {
  import opened Common
  import opened StoreFormat
  import opened StoreRecovery
  import opened VolatileDisk

  /** The constants of a store: its size in blocks, its identity, the checksum functions. */
  datatype Config = Config(n: nat, id: nat, sum: Checksums)

  /** A generation that a superblock points to. */
  datatype Gen = Gen(slot: nat, blk: nat, root: Root)

  /** What the run has decided so far: the generation every crash keeps at least (`base`), the
      one whose superblock is written but perhaps not flushed (`next`), the objects that each
      generation was committed with, and the generations retained by either that may be damaged. */
  datatype Ledger = Ledger(base: Gen, next: Option<Gen>, truth: map<nat, Contents>,
                           baseLost: set<nat>, nextLost: set<nat>)

  function RefOf(cfg: Config, r: Root, blk: nat): Ref {
    Ref(r.gen, blk, cfg.sum.root(r))
  }

  function SuperOf(cfg: Config, g: Gen): Block {
    SuperBlock(MakeSuper(g.root, g.blk, cfg.n, cfg.sum))
  }

  ghost predicate Live(v: seq<Block>, m: seq<set<Block>>) {
    |m| == |v| && forall b | 0 <= b < |v| :: v[b] in m[b]
  }

  ghost predicate Geometry(v: seq<Block>, m: seq<set<Block>>, cfg: Config) {
    Live(v, m) && MIN_BLOCKS <= cfg.n <= |v| && cfg.n <= MAX_BLOCKS
  }

  function Names(objs: seq<Obj>): set<string> {
    set o | o in objs :: o.name
  }

  /** The extents of `objs` verify and hold exactly the bytes of `c`. */
  ghost predicate Holds(v: seq<Block>, objs: seq<Obj>, c: Contents, sum: Checksums) {
    && c.Keys == Names(objs)
    && forall o <- objs :: ExtentOk(v, o, sum) && o.name in c && c[o.name] == ObjBytes(v, o)
  }

  ghost predicate Settled(v: seq<Block>, m: seq<set<Block>>, s: set<nat>) {
    |m| == |v| && forall b <- s :: b < |v| && m[b] == {v[b]}
  }

  /** The generation is on the medium: no crash can change its root or its data. */
  ghost predicate Firm(v: seq<Block>, m: seq<set<Block>>, cfg: Config, r: Root, blk: nat, c: Contents) {
    && FIRST_DATA <= blk < cfg.n <= |v|
    && v[blk] == RootBlock(r) && r.storeId == cfg.id && RootSane(r, cfg.n)
    && Settled(v, m, RootBlocks(r, blk))
    && Holds(v, r.objs, c, cfg.sum)
  }

  ghost predicate RefFirm(v: seq<Block>, m: seq<set<Block>>, cfg: Config, f: Ref, truth: map<nat, Contents>) {
    && f.blk < |v| && v[f.blk].RootBlock?
    && f == RefOf(cfg, v[f.blk].root, f.blk)
    && f.gen in truth
    && Firm(v, m, cfg, v[f.blk].root, f.blk, truth[f.gen])
  }

  /** Two extents are the same extent or share no block. */
  predicate SharedOrApart(o: Obj, p: Obj) {
    || (o.blk == p.blk && o.nblk == p.nblk && o.crc == p.crc && o.oid == p.oid)
    || o.nblk == 0 || p.nblk == 0 || !Overlap(o.blk, o.nblk, p.blk, p.nblk)
  }

  ghost predicate RootsApart(r: Root, blk: nat, r': Root, blk': nat) {
    && (forall o <- r.objs :: !Covers(o, blk'))
    && (forall o <- r'.objs :: !Covers(o, blk))
    && forall o <- r.objs, p <- r'.objs :: SharedOrApart(o, p)
  }

  /** What `r` retains, but for the generations in `lost`. */
  ghost predicate Has(r: Root, lost: set<nat>, f: Ref) {
    f in Refs(r) && f.gen !in lost
  }

  /** Every retained generation of `r` outside `lost` is on the medium, and their extents do not collide. */
  ghost predicate Whole(v: seq<Block>, m: seq<set<Block>>, cfg: Config, r: Root, blk: nat, truth: map<nat, Contents>,
                        lost: set<nat>) {
    && (forall f | Has(r, lost, f) :: RefFirm(v, m, cfg, f, truth))
    && RootsApart(r, blk, r, blk)
    && (forall f | Has(r, lost, f) :: RootsApart(r, blk, v[f.blk].root, f.blk))
    && forall f, g | Has(r, lost, f) && Has(r, lost, g) :: RootsApart(v[f.blk].root, f.blk, v[g.blk].root, g.blk)
  }

  /** Content of the slot that does not hold the base: nothing mountable, or the generation
      that the base retains first. */
  ghost predicate OlderSlot(x: Block, cfg: Config, base: Root) {
    x.SuperBlock? ==>
      && base.hist != []
      && x.super.version == FORMAT_VERSION && x.super.blockSize == BLOCK && x.super.blockCount == cfg.n
      && x.super.storeId == cfg.id
      && Ref(x.super.gen, x.super.rootBlk, x.super.rootCrc) == base.hist[0]
  }

  /** A generation on the medium, with everything it retains outside `lost`. */
  ghost predicate GenOk(v: seq<Block>, m: seq<set<Block>>, cfg: Config, g: Gen, truth: map<nat, Contents>,
                        lost: set<nat>) {
    && g.root.gen in truth && Firm(v, m, cfg, g.root, g.blk, truth[g.root.gen])
    && Whole(v, m, cfg, g.root, g.blk, truth, lost)
  }

  /** The superblock slots: that of the base is settled; the other one holds nothing newer than
      the base, or, perhaps not yet flushed, the superblock of `next`. */
  ghost predicate Slots(v: seq<Block>, m: seq<set<Block>>, cfg: Config, l: Ledger)
    requires |m| == |v| >= 2
  {
    && l.base.slot < 2
    && m[l.base.slot] == {SuperOf(cfg, l.base)}
    && (forall x <- m[1 - l.base.slot] ::
          OlderSlot(x, cfg, l.base.root) || (l.next.Some? && x == SuperOf(cfg, l.next.value)))
    && match l.next
       case None => OlderSlot(v[1 - l.base.slot], cfg, l.base.root)
       case Some(g) =>
         && g.slot == 1 - l.base.slot && v[g.slot] == SuperOf(cfg, g)
         && g.root.hist != [] && g.root.hist[0] == RefOf(cfg, l.base.root, l.base.blk)
  }

  ghost predicate DiskInv(v: seq<Block>, m: seq<set<Block>>, cfg: Config, l: Ledger) {
    && Geometry(v, m, cfg)
    && Slots(v, m, cfg, l)
    && GenOk(v, m, cfg, l.base, l.truth, l.baseLost)
    && (l.next.Some? ==> GenOk(v, m, cfg, l.next.value, l.truth, l.nextLost))
  }

  /** The generation that reads show as the newest. */
  function Top(l: Ledger): Gen {
    if l.next.Some? then l.next.value else l.base
  }

  function TopLost(l: Ledger): set<nat> {
    if l.next.Some? then l.nextLost else l.baseLost
  }

  lemma InvIntro(v: seq<Block>, m: seq<set<Block>>, cfg: Config, l: Ledger)
    requires Geometry(v, m, cfg) && Slots(v, m, cfg, l)
    requires GenOk(v, m, cfg, l.base, l.truth, l.baseLost)
    requires l.next.Some? ==> GenOk(v, m, cfg, l.next.value, l.truth, l.nextLost)
    ensures DiskInv(v, m, cfg, l)
  {
  }

  // ---- recovery ----

  lemma FirmMountable(v: seq<Block>, m: seq<set<Block>>, cfg: Config, g: Gen, c: Contents)
    requires Geometry(v, m, cfg) && Firm(v, m, cfg, g.root, g.blk, c) && g.slot < 2 && v[g.slot] == SuperOf(cfg, g)
    ensures ReadSlot(v, g.slot) == SlotInfo(Older, g.root.gen, cfg.id, cfg.n, g.blk, cfg.sum.root(g.root))
    ensures Mountable(v, g.slot, cfg.sum)
    ensures LoadRoot(v, cfg.n, RefOf(cfg, g.root, g.blk), cfg.sum) == Some(g.root)
  {
  }

  /** Mounting a disk that satisfies the invariant accepts the newest generation it shows. */
  lemma MountFindsTop(v: seq<Block>, m: seq<set<Block>>, cfg: Config, l: Ledger)
    requires DiskInv(v, m, cfg, l)
    ensures MIN_BLOCKS <= cfg.n <= |v| && MountSlot(v, cfg.sum) == Some(Top(l).slot)
    ensures Top(l).slot < 2 && v[Top(l).slot] == SuperOf(cfg, Top(l)) && Mountable(v, Top(l).slot, cfg.sum)
    ensures ReadSlot(v, Top(l).slot) ==
                SlotInfo(Older, Top(l).root.gen, cfg.id, cfg.n, Top(l).blk, cfg.sum.root(Top(l).root))
    ensures MaxGen(v) == Top(l).root.gen
    ensures LoadRoot(v, cfg.n, RefOf(cfg, Top(l).root, Top(l).blk), cfg.sum) == Some(Top(l).root)
  {
    TopFirm(v, m, cfg, l);
    MountFirm(v, m, cfg, l);
  }

  /** The newest generation can be mounted. */
  lemma TopFirm(v: seq<Block>, m: seq<set<Block>>, cfg: Config, l: Ledger)
    requires Geometry(v, m, cfg) && Slots(v, m, cfg, l)
    requires l.base.root.gen in l.truth && Firm(v, m, cfg, l.base.root, l.base.blk, l.truth[l.base.root.gen])
    requires l.next.Some? ==>
               var g := l.next.value; g.root.gen in l.truth && Firm(v, m, cfg, g.root, g.blk, l.truth[g.root.gen])
    ensures MIN_BLOCKS <= cfg.n <= |v| && Top(l).slot < 2 && v[Top(l).slot] == SuperOf(cfg, Top(l))
    ensures Mountable(v, Top(l).slot, cfg.sum)
    ensures ReadSlot(v, Top(l).slot) ==
                SlotInfo(Older, Top(l).root.gen, cfg.id, cfg.n, Top(l).blk, cfg.sum.root(Top(l).root))
    ensures LoadRoot(v, cfg.n, RefOf(cfg, Top(l).root, Top(l).blk), cfg.sum) == Some(Top(l).root)
  {
    var g := Top(l);
    assert l.next.None? ==> v[g.slot] in m[g.slot];
    FirmMountable(v, m, cfg, g, l.truth[g.root.gen]);
  }

  /** ... and is the one that is. */
  lemma MountFirm(v: seq<Block>, m: seq<set<Block>>, cfg: Config, l: Ledger)
    requires Geometry(v, m, cfg) && Slots(v, m, cfg, l)
    requires l.base.root.gen in l.truth && Firm(v, m, cfg, l.base.root, l.base.blk, l.truth[l.base.root.gen])
    requires l.next.Some? ==>
               var g := l.next.value; g.root.gen in l.truth && Firm(v, m, cfg, g.root, g.blk, l.truth[g.root.gen])
    ensures |v| >= MIN_BLOCKS && MountSlot(v, cfg.sum) == Some(Top(l).slot) && MaxGen(v) == Top(l).root.gen
  {
    assert v[l.base.slot] in m[l.base.slot];
    FirmMountable(v, m, cfg, l.base, l.truth[l.base.root.gen]);
    if l.next.Some? {
      FirmMountable(v, m, cfg, l.next.value, l.truth[l.next.value.root.gen]);
    }
  }

  // ---- frames ----

  ghost predicate Kept(v: seq<Block>, m: seq<set<Block>>, v': seq<Block>, m': seq<set<Block>>, s: set<nat>) {
    && |m| == |v| && Live(v', m') && |v'| == |v|
    && forall b <- s | b < |v| :: v'[b] == v[b] && m'[b] <= m[b]
  }

  lemma HoldsFrame(v: seq<Block>, v': seq<Block>, objs: seq<Obj>, c: Contents, sum: Checksums)
    requires Holds(v, objs, c, sum) && |v'| == |v|
    requires forall o <- objs, b | o.blk <= b < o.blk + o.nblk && b < |v| :: v'[b] == v[b]
    ensures Holds(v', objs, c, sum)
  {
    forall o <- objs ensures ExtentOk(v', o, sum) && ObjBytes(v', o) == ObjBytes(v, o) {
      ExtentFrame(v, v', o, sum);
    }
  }

  lemma ExtentInRoot(r: Root, blk: nat, o: Obj, b: nat)
    requires o in r.objs && o.blk <= b < o.blk + o.nblk
    ensures b in RootBlocks(r, blk)
  {
    assert Covers(o, b) && b in Extent(o);
  }

  lemma FirmFrame(v: seq<Block>, m: seq<set<Block>>, v': seq<Block>, m': seq<set<Block>>, cfg: Config,
                  r: Root, blk: nat, c: Contents)
    requires Firm(v, m, cfg, r, blk, c) && Kept(v, m, v', m', RootBlocks(r, blk))
    ensures Firm(v', m', cfg, r, blk, c)
  {
    forall o <- r.objs, b | o.blk <= b < o.blk + o.nblk && b < |v| ensures v'[b] == v[b] {
      ExtentInRoot(r, blk, o, b);
    }
    HoldsFrame(v, v', r.objs, c, cfg.sum);
  }

  ghost predicate RefsKept(v: seq<Block>, m: seq<set<Block>>, v': seq<Block>, m': seq<set<Block>>, r: Root,
                           lost: set<nat>) {
    forall f | Has(r, lost, f) ::
      f.blk < |v| && v[f.blk].RootBlock? ==> Kept(v, m, v', m', RootBlocks(v[f.blk].root, f.blk))
  }

  lemma WholeFrame(v: seq<Block>, m: seq<set<Block>>, v': seq<Block>, m': seq<set<Block>>, cfg: Config,
                   r: Root, blk: nat, truth: map<nat, Contents>, lost: set<nat>)
    requires Whole(v, m, cfg, r, blk, truth, lost) && RefsKept(v, m, v', m', r, lost)
    ensures Whole(v', m', cfg, r, blk, truth, lost)
  {
    forall f | Has(r, lost, f) ensures RefFirm(v', m', cfg, f, truth) && v'[f.blk] == v[f.blk] {
      assert RefFirm(v, m, cfg, f, truth);
      FirmFrame(v, m, v', m', cfg, v[f.blk].root, f.blk, truth[f.gen]);
    }
  }

  lemma GenFrame(v: seq<Block>, m: seq<set<Block>>, v': seq<Block>, m': seq<set<Block>>, cfg: Config,
                 g: Gen, truth: map<nat, Contents>, lost: set<nat>)
    requires GenOk(v, m, cfg, g, truth, lost) && Kept(v, m, v', m', RootBlocks(g.root, g.blk))
    requires RefsKept(v, m, v', m', g.root, lost)
    ensures GenOk(v', m', cfg, g, truth, lost)
  {
    FirmFrame(v, m, v', m', cfg, g.root, g.blk, truth[g.root.gen]);
    WholeFrame(v, m, v', m', cfg, g.root, g.blk, truth, lost);
  }

  lemma SlotsFrame(v: seq<Block>, m: seq<set<Block>>, v': seq<Block>, m': seq<set<Block>>, cfg: Config, l: Ledger)
    requires |m| == |v| >= 2 && Slots(v, m, cfg, l) && Kept(v, m, v', m', {0, 1})
    ensures Slots(v', m', cfg, l)
  {
    var s, s' := l.base.slot, 1 - l.base.slot;
    assert s in {0, 1} && s' in {0, 1};
    assert v'[s] in m'[s];
  }

  /** An operation that changes no read and adds no survivor keeps the invariant. */
  lemma InvShrunk(v: seq<Block>, m: seq<set<Block>>, v': seq<Block>, m': seq<set<Block>>, cfg: Config, l: Ledger)
    requires DiskInv(v, m, cfg, l) && Live(v', m') && Shrunk(v, m, v', m')
    ensures DiskInv(v', m', cfg, l)
  {
    SlotsShrunk(v, m, v', m', cfg, l);
    GenShrunk(v, m, v', m', cfg, l.base, l.truth, l.baseLost);
    if l.next.Some? {
      GenShrunk(v, m, v', m', cfg, l.next.value, l.truth, l.nextLost);
    }
    InvIntro(v', m', cfg, l);
  }

  lemma SlotsShrunk(v: seq<Block>, m: seq<set<Block>>, v': seq<Block>, m': seq<set<Block>>, cfg: Config, l: Ledger)
    requires |m| == |v| >= 2 && Slots(v, m, cfg, l) && Live(v', m') && Shrunk(v, m, v', m')
    ensures Slots(v', m', cfg, l)
  {
    SlotsFrame(v, m, v', m', cfg, l);
  }

  lemma GenShrunk(v: seq<Block>, m: seq<set<Block>>, v': seq<Block>, m': seq<set<Block>>, cfg: Config,
                  g: Gen, truth: map<nat, Contents>, lost: set<nat>)
    requires |m| == |v| && GenOk(v, m, cfg, g, truth, lost) && Live(v', m') && Shrunk(v, m, v', m')
    ensures GenOk(v', m', cfg, g, truth, lost)
  {
    GenFrame(v, m, v', m', cfg, g, truth, lost);
  }

  // ---- flush and crash ----

  /** Once its superblock is flushed the newest generation is the one every crash keeps. */
  function Promoted(l: Ledger): Ledger {
    if l.next.Some? then l.(base := l.next.value, next := None, baseLost := l.nextLost) else l
  }

  lemma SlotsPromoted(v: seq<Block>, m: seq<set<Block>>, cfg: Config, l: Ledger)
    requires Live(v, m) && |v| >= 2 && Slots(v, m, cfg, l) && m[1 - l.base.slot] == {v[1 - l.base.slot]}
    requires l.base.root.storeId == cfg.id
    ensures Slots(v, m, cfg, Promoted(l))
  {
    assert v[l.base.slot] in m[l.base.slot];
  }

  lemma InvFlushed(v: seq<Block>, m: seq<set<Block>>, v': seq<Block>, m': seq<set<Block>>, cfg: Config, l: Ledger)
    requires DiskInv(v, m, cfg, l) && Flushed(v, v', m')
    ensures DiskInv(v', m', cfg, Promoted(l))
  {
    InvShrunk(v, m, v', m', cfg, l);
    SlotsPromoted(v', m', cfg, l);
  }

  /** What remains of the ledger on a disk where the slots hold these blocks. */
  function Recovered(l: Ledger, cfg: Config, v: seq<Block>): Ledger
    requires l.base.slot < 2 <= |v|
  {
    if l.next.Some? && v[1 - l.base.slot] == SuperOf(cfg, l.next.value) then Promoted(l) else l.(next := None)
  }

  lemma SlotsCrashed(v: seq<Block>, m: seq<set<Block>>, v': seq<Block>, m': seq<set<Block>>, cfg: Config, l: Ledger)
    requires Live(v, m) && |v| >= 2 && Slots(v, m, cfg, l) && Crashed(m, v', m') && l.base.root.storeId == cfg.id
    ensures Slots(v', m', cfg, Recovered(l, cfg, v'))
  {
    var s, s' := l.base.slot, 1 - l.base.slot;
    assert v'[s] in m[s] && v'[s'] in m[s'];
  }

  /** The invariant survives a crash, whichever cached writes the medium kept or tore. */
  lemma InvCrashed(v: seq<Block>, m: seq<set<Block>>, v': seq<Block>, m': seq<set<Block>>, cfg: Config, l: Ledger)
    requires DiskInv(v, m, cfg, l) && Crashed(m, v', m')
    ensures DiskInv(v', m', cfg, Recovered(l, cfg, v'))
  {
    SlotsCrashed(v, m, v', m', cfg, l);
    GenCrashed(v, m, v', m', cfg, l.base, l.truth, l.baseLost);
    if l.next.Some? {
      GenCrashed(v, m, v', m', cfg, l.next.value, l.truth, l.nextLost);
    }
  }

  lemma GenCrashed(v: seq<Block>, m: seq<set<Block>>, v': seq<Block>, m': seq<set<Block>>, cfg: Config,
                   g: Gen, truth: map<nat, Contents>, lost: set<nat>)
    requires GenOk(v, m, cfg, g, truth, lost) && Crashed(m, v', m')
    ensures GenOk(v', m', cfg, g, truth, lost)
  {
    SettledKept(v, m, v', m', RootBlocks(g.root, g.blk));
    RefsSettled(v, m, v', m', cfg, g.root, g.blk, truth, lost);
    GenFrame(v, m, v', m', cfg, g, truth, lost);
  }

  lemma SettledKept(v: seq<Block>, m: seq<set<Block>>, v': seq<Block>, m': seq<set<Block>>, s: set<nat>)
    requires Settled(v, m, s) && Crashed(m, v', m')
    ensures Kept(v, m, v', m', s)
  {
    forall b <- s ensures v'[b] == v[b] {
      assert v'[b] in m[b];
    }
  }

  lemma RefsSettled(v: seq<Block>, m: seq<set<Block>>, v': seq<Block>, m': seq<set<Block>>, cfg: Config,
                    r: Root, blk: nat, truth: map<nat, Contents>, lost: set<nat>)
    requires Whole(v, m, cfg, r, blk, truth, lost) && Crashed(m, v', m')
    ensures RefsKept(v, m, v', m', r, lost)
  {
    forall f | Has(r, lost, f) ensures Kept(v, m, v', m', RootBlocks(v[f.blk].root, f.blk)) {
      assert RefFirm(v, m, cfg, f, truth);
      SettledKept(v, m, v', m', RootBlocks(v[f.blk].root, f.blk));
    }
  }

  // ---- writing to free blocks ----

  lemma RootBlocksInRange(r: Root, blk: nat, n: nat)
    requires RootSane(r, n) && FIRST_DATA <= blk < n
    ensures forall b <- RootBlocks(r, blk) :: FIRST_DATA <= b < n
  {
    forall o <- r.objs, b <- Extent(o) ensures FIRST_DATA <= b < n {
      assert ObjShaped(o, r.gen, r.nextOid, n);
    }
  }

  lemma RefGuarded(v: seq<Block>, m: seq<set<Block>>, cfg: Config, fs: seq<Ref>, f: Ref, c: Contents)
    requires f in fs && f.blk < |v| && v[f.blk].RootBlock? && f == RefOf(cfg, v[f.blk].root, f.blk)
    requires Firm(v, m, cfg, v[f.blk].root, f.blk, c)
    ensures RootBlocks(v[f.blk].root, f.blk) <= RefsUsed(v, cfg.n, fs, cfg.sum)
  {
    var r := v[f.blk].root;
    RootBlocksInRange(r, f.blk, cfg.n);
    assert LoadRoot(v, cfg.n, f, cfg.sum) == Some(r);
    assert RootBlocks(r, f.blk) <= Marked(r, f.blk, cfg.n);
    RefsUsedHas(v, cfg.n, fs, cfg.sum, f);
  }

  /** The blocks in use of a generation contain everything that it needs. */
  lemma UsedGuards(v: seq<Block>, m: seq<set<Block>>, cfg: Config, g: Gen, truth: map<nat, Contents>, lost: set<nat>)
    requires GenOk(v, m, cfg, g, truth, lost)
    ensures var used := UsedBlocks(v, cfg.n, g.root, g.blk, cfg.sum);
      && RootBlocks(g.root, g.blk) <= used
      && (forall f <- Refs(g.root) :: f.blk < cfg.n ==> f.blk in used)
      && (forall f | Has(g.root, lost, f) :: RootBlocks(v[f.blk].root, f.blk) <= used)
  {
    var used := UsedBlocks(v, cfg.n, g.root, g.blk, cfg.sum);
    RootBlocksInRange(g.root, g.blk, cfg.n);
    assert RootBlocks(g.root, g.blk) <= Marked(g.root, g.blk, cfg.n);
    forall f <- Refs(g.root) ensures f.blk < cfg.n ==> f.blk in used {
      RefsUsedHas(v, cfg.n, Refs(g.root), cfg.sum, f);
    }
    forall f | Has(g.root, lost, f) ensures RootBlocks(v[f.blk].root, f.blk) <= used {
      assert RefFirm(v, m, cfg, f, truth);
      RefGuarded(v, m, cfg, Refs(g.root), f, truth[f.gen]);
    }
  }

  /** ... and so do those of `next` for the base, which it retains first. */
  lemma UsedGuardsBase(v: seq<Block>, m: seq<set<Block>>, cfg: Config, base: Gen, next: Root, c: Contents)
    requires Firm(v, m, cfg, base.root, base.blk, c)
    requires next.hist != [] && next.hist[0] == RefOf(cfg, base.root, base.blk)
    ensures RootBlocks(base.root, base.blk) <= RefsUsed(v, cfg.n, Refs(next), cfg.sum)
  {
    assert RefOf(cfg, base.root, base.blk) == Refs(next)[0];
    RefGuarded(v, m, cfg, Refs(next), RefOf(cfg, base.root, base.blk), c);
  }

  lemma GenWriteFree(v: seq<Block>, m: seq<set<Block>>, v': seq<Block>, m': seq<set<Block>>, cfg: Config,
                     g: Gen, truth: map<nat, Contents>, lost: set<nat>, used: set<nat>)
    requires GenOk(v, m, cfg, g, truth, lost) && used == UsedBlocks(v, cfg.n, g.root, g.blk, cfg.sum)
    requires Kept(v, m, v', m', used)
    ensures GenOk(v', m', cfg, g, truth, lost)
    ensures used == UsedBlocks(v', cfg.n, g.root, g.blk, cfg.sum)
  {
    UsedGuards(v, m, cfg, g, truth, lost);
    GenFrame(v, m, v', m', cfg, g, truth, lost);
    RefsUsedFrame(v, v', cfg.n, Refs(g.root), cfg.sum);
  }

  /** The generations that g retains and h does not. */
  function Dropped(g: Root, h: Root): set<nat> {
    set f | f in Refs(g) && f !in Refs(h) :: f.gen
  }

  /** While the newest superblock is still cached, only what its generation retains is protected. */
  function Spent(l: Ledger): Ledger {
    if l.next.Some? then l.(baseLost := l.baseLost + Dropped(l.base.root, l.next.value.root)) else l
  }

  /** Whatever comes of writing to blocks that are not in use, the invariant holds. */
  lemma InvWriteFree(v: seq<Block>, m: seq<set<Block>>, v': seq<Block>, m': seq<set<Block>>, cfg: Config, l: Ledger,
                     used: set<nat>, blk: nat, data: seq<Block>, ok: bool)
    requires DiskInv(v, m, cfg, l) && used == UsedBlocks(v, cfg.n, Top(l).root, Top(l).blk, cfg.sum)
    requires Live(v', m') && Wrote(v, m, v', m', blk, data, Junk, ok)
    requires forall b | blk <= b < blk + |data| :: b !in used
    ensures DiskInv(v', m', cfg, Spent(l))
    ensures used == UsedBlocks(v', cfg.n, Top(l).root, Top(l).blk, cfg.sum)
  {
    KeptOutside(v, m, v', m', used, blk, data, ok);
    InvKept(v, m, v', m', cfg, l, used);
  }

  lemma InvKept(v: seq<Block>, m: seq<set<Block>>, v': seq<Block>, m': seq<set<Block>>, cfg: Config, l: Ledger,
                used: set<nat>)
    requires DiskInv(v, m, cfg, l) && used == UsedBlocks(v, cfg.n, Top(l).root, Top(l).blk, cfg.sum)
    requires Kept(v, m, v', m', used) && Kept(v, m, v', m', {0, 1})
    ensures DiskInv(v', m', cfg, Spent(l))
    ensures used == UsedBlocks(v', cfg.n, Top(l).root, Top(l).blk, cfg.sum)
  {
    SlotsFrame(v, m, v', m', cfg, l);
    match l.next {
      case None =>
        GenWriteFree(v, m, v', m', cfg, l.base, l.truth, l.baseLost, used);
      case Some(g) =>
        GenWriteFree(v, m, v', m', cfg, g, l.truth, l.nextLost, used);
        BaseWriteFree(v, m, v', m', cfg, l.base, g, l.truth, l.baseLost, used);
    }
    SlotsSpent(v', m', cfg, l);
    InvIntro(v', m', cfg, Spent(l));
  }

  lemma SlotsSpent(v: seq<Block>, m: seq<set<Block>>, cfg: Config, l: Ledger)
    requires |m| == |v| >= 2 && Slots(v, m, cfg, l)
    ensures Slots(v, m, cfg, Spent(l))
  {
  }

  lemma KeptOutside(v: seq<Block>, m: seq<set<Block>>, v': seq<Block>, m': seq<set<Block>>,
                    used: set<nat>, blk: nat, data: seq<Block>, ok: bool)
    requires |m| == |v| && Live(v', m') && Wrote(v, m, v', m', blk, data, Junk, ok)
    requires forall b | blk <= b < blk + |data| :: b !in used
    ensures Kept(v, m, v', m', used)
    ensures {0, 1} <= used ==> Kept(v, m, v', m', {0, 1})
  {
  }

  lemma BaseWriteFree(v: seq<Block>, m: seq<set<Block>>, v': seq<Block>, m': seq<set<Block>>, cfg: Config,
                      base: Gen, next: Gen, truth: map<nat, Contents>, lost: set<nat>, used: set<nat>)
    requires GenOk(v, m, cfg, base, truth, lost)
    requires next.root.hist != [] && next.root.hist[0] == RefOf(cfg, base.root, base.blk)
    requires RefsUsed(v, cfg.n, Refs(next.root), cfg.sum) <= used && Kept(v, m, v', m', used)
    ensures GenOk(v', m', cfg, base, truth, lost + Dropped(base.root, next.root))
  {
    var lost' := lost + Dropped(base.root, next.root);
    UsedGuardsBase(v, m, cfg, base, next.root, truth[base.root.gen]);
    WholeLess(v, m, cfg, base.root, base.blk, truth, lost, lost');
    forall f | Has(base.root, lost', f) ensures Kept(v, m, v', m', RootBlocks(v[f.blk].root, f.blk)) {
      assert f in Refs(next.root);
      assert RefFirm(v, m, cfg, f, truth);
      RefGuarded(v, m, cfg, Refs(next.root), f, truth[f.gen]);
    }
    GenFrame(v, m, v', m', cfg, base, truth, lost');
  }

  lemma WholeLess(v: seq<Block>, m: seq<set<Block>>, cfg: Config, r: Root, blk: nat, truth: map<nat, Contents>,
                  lost: set<nat>, lost': set<nat>)
    requires Whole(v, m, cfg, r, blk, truth, lost) && lost <= lost'
    ensures Whole(v, m, cfg, r, blk, truth, lost')
  {
    assert forall f | Has(r, lost', f) :: Has(r, lost, f);
  }

  // ---- publishing a generation ----

  lemma RefGens(r: Root, n: nat, f: Ref)
    requires RootSane(r, n) && f in Refs(r)
    ensures f.gen < r.gen
  {
    var i :| 0 <= i < |Refs(r)| && Refs(r)[i] == f;
    if i < |r.hist| {
      HistBelow(r.gen, r.hist, n, i);
    } else {
      assert r.pins[i - |r.hist|] in r.pins;
    }
  }

  lemma {:induction false} HistBelow(gen: nat, hist: seq<Ref>, n: nat, i: nat)
    requires HistSane(gen, hist, n) && i < |hist|
    ensures hist[i].gen < gen
  {
    if i > 0 {
      HistBelow(gen, hist, n, i - 1);
    }
  }

  /** Recording the objects of a newer generation changes nothing about the older ones. */
  lemma WholeExtend(v: seq<Block>, m: seq<set<Block>>, cfg: Config, r: Root, blk: nat, truth: map<nat, Contents>,
                    lost: set<nat>, gen: nat, c: Contents)
    requires Whole(v, m, cfg, r, blk, truth, lost) && RootSane(r, cfg.n) && gen >= r.gen
    ensures Whole(v, m, cfg, r, blk, truth[gen := c], lost)
  {
    forall f | Has(r, lost, f) ensures RefFirm(v, m, cfg, f, truth[gen := c]) {
      RefGens(r, cfg.n, f);
      assert RefFirm(v, m, cfg, f, truth);
    }
  }

  function Published(l: Ledger, cfg: Config, g: Gen, c: Contents, slotNow: Block): Ledger {
    Ledger(l.base, if slotNow == SuperOf(cfg, g) then Some(g) else None, l.truth[g.root.gen := c],
           l.baseLost, l.baseLost)
  }

  lemma SlotsPublished(v: seq<Block>, m: seq<set<Block>>, v': seq<Block>, m': seq<set<Block>>, cfg: Config, l: Ledger,
                       g: Gen, c: Contents, ok: bool)
    requires Live(v, m) && |v| >= 2 && Slots(v, m, cfg, l) && l.next.None?
    requires m[1 - l.base.slot] == {v[1 - l.base.slot]}
    requires g.slot == 1 - l.base.slot && g.root.gen > l.base.root.gen
    requires HistSane(l.base.root.gen, l.base.root.hist, cfg.n)
    requires g.root.hist != [] && g.root.hist[0] == RefOf(cfg, l.base.root, l.base.blk)
    requires Live(v', m') && Wrote(v, m, v', m', g.slot, [SuperOf(cfg, g)], Junk, ok)
    ensures Slots(v', m', cfg, Published(l, cfg, g, c, v'[g.slot]))
    ensures ok ==> v'[g.slot] == SuperOf(cfg, g)
  {
    assert v'[l.base.slot] in m'[l.base.slot];
    assert OlderSlot(v[g.slot], cfg, l.base.root);
    assert v[g.slot] != SuperOf(cfg, g);
  }

  lemma GenOffSlots(v: seq<Block>, m: seq<set<Block>>, v': seq<Block>, m': seq<set<Block>>, cfg: Config,
                    g: Gen, truth: map<nat, Contents>, lost: set<nat>, slot: nat)
    requires GenOk(v, m, cfg, g, truth, lost) && slot < FIRST_DATA
    requires |m| == |v| == |v'| && Live(v', m')
    requires forall b | 0 <= b < |v| && b != slot :: v'[b] == v[b] && m'[b] <= m[b]
    ensures GenOk(v', m', cfg, g, truth, lost)
  {
    RootBlocksInRange(g.root, g.blk, cfg.n);
    forall f | Has(g.root, lost, f) ensures Kept(v, m, v', m', RootBlocks(v[f.blk].root, f.blk)) {
      assert RefFirm(v, m, cfg, f, truth);
      RootBlocksInRange(v[f.blk].root, f.blk, cfg.n);
    }
    GenFrame(v, m, v', m', cfg, g, truth, lost);
  }

  /** Writing the superblock of a flushed generation into the free slot, whatever comes of it. */
  lemma InvPublished(v: seq<Block>, m: seq<set<Block>>, v': seq<Block>, m': seq<set<Block>>, cfg: Config, l: Ledger,
                     g: Gen, c: Contents, ok: bool)
    requires DiskInv(v, m, cfg, l) && l.next.None? && m[1 - l.base.slot] == {v[1 - l.base.slot]}
    requires g.slot == 1 - l.base.slot && g.root.gen > l.base.root.gen
    requires g.root.hist != [] && g.root.hist[0] == RefOf(cfg, l.base.root, l.base.blk)
    requires GenOk(v, m, cfg, g, l.truth[g.root.gen := c], l.baseLost)
    requires Live(v', m') && Wrote(v, m, v', m', g.slot, [SuperOf(cfg, g)], Junk, ok)
    ensures DiskInv(v', m', cfg, Published(l, cfg, g, c, v'[g.slot]))
    ensures ok ==> v'[g.slot] == SuperOf(cfg, g)
  {
    var truth := l.truth[g.root.gen := c];
    WholeExtend(v, m, cfg, l.base.root, l.base.blk, l.truth, l.baseLost, g.root.gen, c);
    SlotsPublished(v, m, v', m', cfg, l, g, c, ok);
    GenOffSlots(v, m, v', m', cfg, l.base, truth, l.baseLost, g.slot);
    GenOffSlots(v, m, v', m', cfg, g, truth, l.baseLost, g.slot);
    InvIntro(v', m', cfg, Published(l, cfg, g, c, v'[g.slot]));
  }

  // ---- the invariant as the store's operations see it ----

  /** True of every key.  A definition under `forall k :: Key(k, ...) ==> ...` is used only where
      a key is mentioned, so the operations of the store treat the invariant as one fact. */
  ghost predicate Key(k: nat, v: seq<Block>, m: seq<set<Block>>, l: Ledger) { true }

  /** What every state of every run satisfies: DiskInv, as one fact. */
  ghost predicate Safe(v: seq<Block>, m: seq<set<Block>>, cfg: Config, l: Ledger) {
    forall k {:trigger Key(k, v, m, l)} :: Key(k, v, m, l) ==> DiskInv(v, m, cfg, l)
  }

  lemma SafeInv(v: seq<Block>, m: seq<set<Block>>, cfg: Config, l: Ledger)
    requires Safe(v, m, cfg, l)
    ensures DiskInv(v, m, cfg, l)
  {
    assert Key(0, v, m, l);
  }

  ghost predicate UseKey(k: nat, v: seq<Block>, used: set<nat>) { true }

  /** `used` is exactly what the generation (r, blk) keeps in use, as one fact. */
  ghost predicate InUse(v: seq<Block>, cfg: Config, r: Root, blk: nat, used: set<nat>) {
    forall k {:trigger UseKey(k, v, used)} :: UseKey(k, v, used) ==> used == UsedBlocks(v, cfg.n, r, blk, cfg.sum)
  }

  lemma SafeSize(v: seq<Block>, m: seq<set<Block>>, cfg: Config, l: Ledger)
    requires Safe(v, m, cfg, l)
    ensures MIN_BLOCKS <= cfg.n <= |v|
  {
    SafeInv(v, m, cfg, l);
  }

  lemma SafeGens(v: seq<Block>, m: seq<set<Block>>, cfg: Config, l: Ledger)
    requires Safe(v, m, cfg, l)
    ensures l.base.slot < 2 && Top(l).slot < 2 && l.base.root.gen <= Top(l).root.gen
  {
    SafeInv(v, m, cfg, l);
  }

  /** Any write to blocks that are not in use. */
  lemma SafeWriteFree(v: seq<Block>, m: seq<set<Block>>, v': seq<Block>, m': seq<set<Block>>, cfg: Config, l: Ledger,
                      used: set<nat>, blk: nat, data: seq<Block>, ok: bool)
    requires Safe(v, m, cfg, l) && InUse(v, cfg, Top(l).root, Top(l).blk, used)
    requires |m| == |v| && Live(v', m') && Wrote(v, m, v', m', blk, data, Junk, ok)
    requires forall b | blk <= b < blk + |data| :: b !in used
    ensures Safe(v', m', cfg, Spent(l)) && InUse(v', cfg, Top(l).root, Top(l).blk, used)
  {
    SafeInv(v, m, cfg, l);
    assert UseKey(0, v, used);
    InvWriteFree(v, m, v', m', cfg, l, used, blk, data, ok);
  }

  lemma SafeShrunk(v: seq<Block>, m: seq<set<Block>>, v': seq<Block>, m': seq<set<Block>>, cfg: Config, l: Ledger)
    requires Safe(v, m, cfg, l) && |m| == |v| && Live(v', m') && Shrunk(v, m, v', m')
    ensures Safe(v', m', cfg, l)
  {
    SafeInv(v, m, cfg, l);
    InvShrunk(v, m, v', m', cfg, l);
  }

  lemma SafeFlushed(v: seq<Block>, m: seq<set<Block>>, v': seq<Block>, m': seq<set<Block>>, cfg: Config, l: Ledger)
    requires Safe(v, m, cfg, l) && Flushed(v, v', m')
    ensures Safe(v', m', cfg, Promoted(l))
  {
    SafeInv(v, m, cfg, l);
    InvFlushed(v, m, v', m', cfg, l);
  }

  /** Any crash: the newest generation is afterwards the base or its announced successor. */
  lemma SafeCrashed(v: seq<Block>, m: seq<set<Block>>, v': seq<Block>, m': seq<set<Block>>, cfg: Config, l: Ledger)
    requires Safe(v, m, cfg, l) && Crashed(m, v', m')
    ensures l.base.slot < 2 <= |v'| && Safe(v', m', cfg, Recovered(l, cfg, v'))
  {
    SafeInv(v, m, cfg, l);
    InvCrashed(v, m, v', m', cfg, l);
  }

  lemma SafeMount(v: seq<Block>, m: seq<set<Block>>, cfg: Config, l: Ledger)
    requires Safe(v, m, cfg, l)
    ensures MIN_BLOCKS <= cfg.n <= |v| && MountSlot(v, cfg.sum) == Some(Top(l).slot)
    ensures Top(l).slot < 2 && Mountable(v, Top(l).slot, cfg.sum)
    ensures MaxGen(v) == Top(l).root.gen
    ensures var si := ReadSlot(v, Top(l).slot);
      si.blocks == cfg.n && si.rootBlk == Top(l).blk && SlotRoot(v, si, cfg.sum) == Some(Top(l).root)
  {
    SafeInv(v, m, cfg, l);
    MountFindsTop(v, m, cfg, l);
  }

  /** The newest generation is sound and holds the objects it was committed with. */
  lemma SafeTop(v: seq<Block>, m: seq<set<Block>>, cfg: Config, l: Ledger)
    requires Safe(v, m, cfg, l)
    ensures var g := Top(l);
      && RootSane(g.root, cfg.n) && g.root.gen in l.truth && FIRST_DATA <= g.blk < cfg.n <= |v|
      && Holds(v, g.root.objs, l.truth[g.root.gen], cfg.sum)
      && RootBlocks(g.root, g.blk) + {0, 1} <= UsedBlocks(v, cfg.n, g.root, g.blk, cfg.sum)
  {
    SafeInv(v, m, cfg, l);
    UsedGuards(v, m, cfg, Top(l), l.truth, TopLost(l));
  }

  /** Root and extents of `g` are flushed, so its superblock may be written. */
  ghost predicate Ready(v: seq<Block>, m: seq<set<Block>>, cfg: Config, l: Ledger, g: Gen, c: Contents) {
    forall k {:trigger Key(k, v, m, l)} :: Key(k, v, m, l) ==>
      && g.slot == 1 - l.base.slot && g.root.gen > l.base.root.gen
      && g.root.hist != [] && g.root.hist[0] == RefOf(cfg, l.base.root, l.base.blk)
      && GenOk(v, m, cfg, g, l.truth[g.root.gen := c], l.baseLost)
  }

  lemma ReadyGen(v: seq<Block>, m: seq<set<Block>>, cfg: Config, l: Ledger, g: Gen, c: Contents)
    requires Ready(v, m, cfg, l, g, c)
    ensures g.root.gen > l.base.root.gen
  {
    assert Key(0, v, m, l);
  }

  /** Writing the superblock, whatever comes of it. */
  lemma SafePublished(v: seq<Block>, m: seq<set<Block>>, v': seq<Block>, m': seq<set<Block>>, cfg: Config, l: Ledger,
                      g: Gen, c: Contents, ok: bool)
    requires Safe(v, m, cfg, l) && Ready(v, m, cfg, l, g, c) && l.next.None?
    requires |m| == |v| && forall b | 0 <= b < |v| :: m[b] == {v[b]}
    requires Live(v', m') && Wrote(v, m, v', m', g.slot, [SuperOf(cfg, g)], Junk, ok)
    ensures g.slot < |v'| && Safe(v', m', cfg, Published(l, cfg, g, c, v'[g.slot]))
    ensures ok ==> v'[g.slot] == SuperOf(cfg, g)
  {
    assert Key(0, v, m, l);
    SafeInv(v, m, cfg, l);
    InvPublished(v, m, v', m', cfg, l, g, c, ok);
  }

  // ---- reading retained generations ----

  /** A retained generation loads and holds exactly what it was committed with. */
  lemma SafeRetained(v: seq<Block>, m: seq<set<Block>>, cfg: Config, l: Ledger, f: Ref)
    requires Safe(v, m, cfg, l)
    requires f == RefOf(cfg, Top(l).root, Top(l).blk) || Has(Top(l).root, TopLost(l), f)
    ensures var lr := LoadRoot(v, cfg.n, f, cfg.sum);
      && lr.Some? && lr.value.gen == f.gen && f.gen in l.truth && cfg.n <= |v|
      && Holds(v, lr.value.objs, l.truth[f.gen], cfg.sum)
  {
    SafeInv(v, m, cfg, l);
    TopHas(v, m, cfg, l, f);
    FirmLoads(v, m, cfg, f, l.truth);
  }

  /** What the newest generation is or retains is on the medium. */
  lemma TopHas(v: seq<Block>, m: seq<set<Block>>, cfg: Config, l: Ledger, f: Ref)
    requires DiskInv(v, m, cfg, l)
    requires f == RefOf(cfg, Top(l).root, Top(l).blk) || Has(Top(l).root, TopLost(l), f)
    ensures RefFirm(v, m, cfg, f, l.truth)
  {
  }

  lemma FirmLoads(v: seq<Block>, m: seq<set<Block>>, cfg: Config, f: Ref, truth: map<nat, Contents>)
    requires RefFirm(v, m, cfg, f, truth)
    ensures var lr := LoadRoot(v, cfg.n, f, cfg.sum);
      && lr.Some? && lr.value.gen == f.gen && f.gen in truth && cfg.n <= |v|
      && Holds(v, lr.value.objs, truth[f.gen], cfg.sum)
  {
  }

  // ---- a freshly formatted disk ----

  function FormatRoot(id: nat, retain: nat, bootId: nat): Root {
    Root(1, 0, id, 1, bootId, retain, 0, "format", [], [], [LogEntry(1, bootId, "format")], [])
  }

  function FormatLedger(cfg: Config, retain: nat, bootId: nat): Ledger {
    Ledger(Gen(0, FIRST_DATA, FormatRoot(cfg.id, retain, bootId)), None, map[1 := map[]], {}, {})
  }

  lemma SafeFormat(v: seq<Block>, m: seq<set<Block>>, cfg: Config, retain: nat, bootId: nat)
    requires MIN_BLOCKS <= cfg.n <= MAX_BLOCKS && cfg.n <= |v| == |m| && RETAIN_MIN <= retain <= RETAIN_MAX
    requires forall b | 0 <= b < |v| :: m[b] == {v[b]}
    requires v[0] == SuperOf(cfg, FormatLedger(cfg, retain, bootId).base) && !v[1].SuperBlock?
    requires v[FIRST_DATA] == RootBlock(FormatRoot(cfg.id, retain, bootId))
    ensures Safe(v, m, cfg, FormatLedger(cfg, retain, bootId))
  {
    var l := FormatLedger(cfg, retain, bootId);
    var r := l.base.root;
    assert RootSane(r, cfg.n);
    assert RootBlocks(r, FIRST_DATA) == {FIRST_DATA};
    assert Firm(v, m, cfg, r, FIRST_DATA, map[]);
    assert Whole(v, m, cfg, r, FIRST_DATA, l.truth, {});
    InvIntro(v, m, cfg, l);
  }
}
