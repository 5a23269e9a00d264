/** What the invariant of the store means for a user: recovery after any crash, and fallback
    after damage. */
module StoreGuarantees {
  import opened Common
  import opened StoreFormat
  import opened StoreRecovery
  import opened StoreInvariant
  import opened StoreTransaction
  import opened VolatileDisk

  /** Whatever a crash leaves of the unflushed writes, the next mount accepts a generation between
      the one that was safe and the one whose superblock was written, and its objects are exactly
      those that this generation was committed with. */
  lemma CrashRecovers(v: seq<Block>, m: seq<set<Block>>, cfg: Config, l: Ledger, v': seq<Block>, m': seq<set<Block>>)
    requires Safe(v, m, cfg, l) && Crashed(m, v', m')
    ensures |v'| >= MIN_BLOCKS && MountSlot(v', cfg.sum).Some?
    ensures var r := SlotRoot(v', ReadSlot(v', MountSlot(v', cfg.sum).value), cfg.sum);
      && r.Some? && l.base.root.gen <= r.value.gen <= Top(l).root.gen
      && r.value.gen in l.truth && Holds(v', r.value.objs, l.truth[r.value.gen], cfg.sum)
  {
    SafeGens(v, m, cfg, l);
    SafeCrashed(v, m, v', m', cfg, l);
    var l' := Recovered(l, cfg, v');
    SafeMount(v', m', cfg, l');
    SafeTop(v', m', cfg, l');
  }

  /** Should the medium lose the current superblock, a mount finds the generation in the other slot, one
      that the current generation retains, with all its objects. */
  lemma FallbackFindsPrevious(v: seq<Block>, m: seq<set<Block>>, cfg: Config, l: Ledger, damaged: Block)
    requires Safe(v, m, cfg, l) && l.next.None? && l.base.slot < 2 <= |v|
    requires l.base.root.hist != [] ==> l.base.root.hist[0].gen !in l.baseLost
    requires !damaged.SuperBlock? && v[1 - l.base.slot].SuperBlock?
    ensures var v' := v[l.base.slot := damaged];
      && |v'| >= MIN_BLOCKS && MountSlot(v', cfg.sum) == Some(1 - l.base.slot)
      && l.base.root.hist != []
      && var r := SlotRoot(v', ReadSlot(v', 1 - l.base.slot), cfg.sum);
         && r.Some? && r.value.gen == l.base.root.hist[0].gen && r.value.gen in l.truth
         && Holds(v', r.value.objs, l.truth[r.value.gen], cfg.sum)
  {
    SafeInv(v, m, cfg, l);
    var v' := v[l.base.slot := damaged];
    var f := l.base.root.hist[0];
    assert f == Refs(l.base.root)[0] && Has(l.base.root, l.baseLost, f);
    assert RefFirm(v, m, cfg, f, l.truth);
    FirmStays(v, m, cfg, v[f.blk].root, f.blk, l.truth[f.gen], l.base.slot, damaged);
    FallbackSlot(v', cfg, l.base.slot, l.base.root, f, l.truth[f.gen]);
  }

  /** Damage to a superblock leaves every generation intact. */
  lemma FirmStays(v: seq<Block>, m: seq<set<Block>>, cfg: Config, r: Root, blk: nat, c: Contents, slot: nat,
                  damaged: Block)
    requires Firm(v, m, cfg, r, blk, c) && slot < 2 <= |v|
    ensures var v' := v[slot := damaged]; v'[blk] == RootBlock(r) && Holds(v', r.objs, c, cfg.sum)
  {
    var v' := v[slot := damaged];
    RootBlocksInRange(r, blk, cfg.n);
    forall o <- r.objs, b | o.blk <= b < o.blk + o.nblk && b < |v| ensures v'[b] == v[b] {
      ExtentInRoot(r, blk, o, b);
    }
    HoldsFrame(v, v', r.objs, c, cfg.sum);
  }

  /** With the other superblock gone the mount takes the older slot. */
  lemma FallbackSlot(v: seq<Block>, cfg: Config, slot: nat, base: Root, f: Ref, c: Contents)
    requires slot < 2 && MIN_BLOCKS <= cfg.n <= Min(|v|, MAX_BLOCKS) && !v[slot].SuperBlock? && v[1 - slot].SuperBlock?
    requires OlderSlot(v[1 - slot], cfg, base) && f == base.hist[0] && f.gen > 0
    requires FIRST_DATA <= f.blk < cfg.n && v[f.blk].RootBlock? && f == RefOf(cfg, v[f.blk].root, f.blk)
    requires v[f.blk].root.storeId == cfg.id && RootSane(v[f.blk].root, cfg.n)
    requires Holds(v, v[f.blk].root.objs, c, cfg.sum)
    ensures MountSlot(v, cfg.sum) == Some(1 - slot)
    ensures SlotRoot(v, ReadSlot(v, 1 - slot), cfg.sum) == Some(v[f.blk].root)
  {
    assert LoadRoot(v, cfg.n, f, cfg.sum) == Some(v[f.blk].root);
  }
}
