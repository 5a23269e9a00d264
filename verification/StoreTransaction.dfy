/** The transaction in memory: what it may reference, and the root that a commit builds from it. */
module StoreTransaction {
  import opened Common
  import opened StoreFormat
  import opened StoreRecovery
  import opened StoreInvariant
  import opened VolatileDisk

  /** The objects of the transaction keep the extents of the current generation or lie in blocks
      that nothing retained uses. */
  ghost predicate TxObjs(cur: Root, objs: seq<Obj>, used: set<nat>, txused: set<nat>) {
    forall o <- objs :: o in cur.objs || Extent(o) <= txused - used
  }

  /** Pins of the transaction refer to generations that the current one retains. */
  ghost predicate TxPins(pins: seq<Pin>, retained: seq<Ref>) {
    && |pins| <= PIN_MAX
    && (forall p <- pins :: PinNameOk(p.name) && p.ref in retained)
    && forall i, j | 0 <= j < i < |pins| :: pins[j].name != pins[i].name
  }

  /** The current generation and everything it retains. */
  function Retained(cfg: Config, cur: Root, blk: nat): seq<Ref> {
    [RefOf(cfg, cur, blk)] + Refs(cur)
  }

  ghost predicate TxOk(cfg: Config, cur: Root, curBlk: nat, work: Root, used: set<nat>, txused: set<nat>) {
    && work.storeId == cur.storeId && work.retain == cur.retain && work.nextOid >= cur.nextOid
    && |work.objs| <= OBJ_MAX && ObjsShaped(work.objs, cur.gen + 1, work.nextOid, cfg.n)
    && TxPins(work.pins, Retained(cfg, cur, curBlk))
    && TxObjs(cur, work.objs, used, txused)
    && forall b <- txused :: FIRST_DATA <= b < cfg.n
  }

  /** A fresh transaction is a copy of the current generation. */
  lemma TxBegin(cfg: Config, cur: Root, curBlk: nat, used: set<nat>)
    requires RootSane(cur, cfg.n)
    ensures TxOk(cfg, cur, curBlk, cur, used, {})
  {
    forall p <- cur.pins ensures p.ref in Retained(cfg, cur, curBlk) {
      var i :| 0 <= i < |cur.pins| && cur.pins[i] == p;
      assert Retained(cfg, cur, curBlk)[1 + |cur.hist| + i] == p.ref;
    }
  }

  // ---- the new root ----

  /** How many earlier generations a commit lists; a sane root retains at least two generations. */
  function KeepCount(prune: bool, retain: nat): (keep: nat)
    ensures keep >= 1
  {
    if prune || retain <= RETAIN_MIN then RETAIN_MIN - 1 else retain - 1
  }

  /** The history a commit writes: its predecessor, followed by the predecessor's own up to the limit. */
  function NewHist(cfg: Config, cur: Root, curBlk: nat, keep: nat): seq<Ref>
    requires keep >= 1
  {
    [RefOf(cfg, cur, curBlk)] + cur.hist[..Min(|cur.hist|, keep - 1)]
  }

  function NewLog(cur: Root, gen: nat, bootId: nat, text: string): seq<LogEntry> {
    [LogEntry(gen, bootId, text)] + cur.log[..Min(|cur.log|, LOG_MAX - 1)]
  }

  function NewRoot(cfg: Config, cur: Root, curBlk: nat, work: Root, bootId: nat, text: string, keep: nat): Root
    requires keep >= 1
  {
    work.(gen := cur.gen + 1, parentGen := cur.gen, bootId := bootId, flags := 0, text := text,
          hist := NewHist(cfg, cur, curBlk, keep), log := NewLog(cur, cur.gen + 1, bootId, text))
  }

  lemma RetainedSane(cfg: Config, cur: Root, curBlk: nat, f: Ref)
    requires RootSane(cur, cfg.n) && FIRST_DATA <= curBlk < cfg.n && f in Retained(cfg, cur, curBlk)
    ensures RefSane(f, cur.gen + 1, cfg.n)
  {
    if f != RefOf(cfg, cur, curBlk) {
      assert f in Refs(cur);
      RefGens(cur, cfg.n, f);
      if f !in cur.hist {
        var i :| 0 <= i < |Refs(cur)| && Refs(cur)[i] == f;
        assert cur.pins[i - |cur.hist|] in cur.pins;
      }
    }
  }

  /** The root that a commit builds passes the structural check of a reader exactly if no
      object's version counter has wrapped around to 0. */
  lemma NewRootSane(cfg: Config, cur: Root, curBlk: nat, work: Root, bootId: nat, text: string, keep: nat,
                    used: set<nat>, txused: set<nat>)
    requires RootSane(cur, cfg.n) && FIRST_DATA <= curBlk < cfg.n
    requires TxOk(cfg, cur, curBlk, work, used, txused)
    requires LabelOk(text) && 1 <= keep < RETAIN_MAX
    ensures RootSane(NewRoot(cfg, cur, curBlk, work, bootId, text, keep), cfg.n) <==> VersionsOk(work.objs)
  {
    var w := NewRoot(cfg, cur, curBlk, work, bootId, text, keep);
    assert HeaderSane(w);
    assert HistSane(w.gen, w.hist, cfg.n) by {
      forall f <- w.hist ensures f == RefOf(cfg, cur, curBlk) || f in cur.hist {}
    }
    assert PinsSane(w, cfg.n) by {
      forall p <- w.pins ensures RefSane(p.ref, w.gen, cfg.n) {
        RetainedSane(cfg, cur, curBlk, p.ref);
      }
    }
  }

  lemma NewRootRefs(cfg: Config, cur: Root, curBlk: nat, work: Root, bootId: nat, text: string, keep: nat,
                    used: set<nat>, txused: set<nat>)
    requires TxOk(cfg, cur, curBlk, work, used, txused) && keep >= 1
    ensures forall f <- Refs(NewRoot(cfg, cur, curBlk, work, bootId, text, keep)) ::
              f == RefOf(cfg, cur, curBlk) || f in Refs(cur)
  {
    var w := NewRoot(cfg, cur, curBlk, work, bootId, text, keep);
    forall f <- Refs(w) ensures f in Retained(cfg, cur, curBlk) {
      var i :| 0 <= i < |Refs(w)| && Refs(w)[i] == f;
      if i >= |w.hist| {
        assert w.pins[i - |w.hist|] in w.pins;
      } else if i > 0 {
        assert Retained(cfg, cur, curBlk)[i] == f;
      }
    }
  }

  // ---- extents of retained generations stay apart ----

  lemma RetainedApart(v: seq<Block>, m: seq<set<Block>>, cfg: Config, cur: Gen, truth: map<nat, Contents>,
                      lost: set<nat>, f: Ref, g: Ref)
    requires GenOk(v, m, cfg, cur, truth, lost)
    requires f == RefOf(cfg, cur.root, cur.blk) || Has(cur.root, lost, f)
    requires g == RefOf(cfg, cur.root, cur.blk) || Has(cur.root, lost, g)
    ensures RefFirm(v, m, cfg, f, truth) && RefFirm(v, m, cfg, g, truth)
    ensures RootsApart(v[f.blk].root, f.blk, v[g.blk].root, g.blk)
  {
    RetainedFirm(v, m, cfg, cur, truth, lost, f);
    RetainedFirm(v, m, cfg, cur, truth, lost, g);
    if Has(cur.root, lost, g) {
      assert Has(cur.root, lost, f) || RootsApart(cur.root, cur.blk, v[g.blk].root, g.blk);
    } else if Has(cur.root, lost, f) {
      ApartSymmetric(cur.root, cur.blk, v[f.blk].root, f.blk);
    }
  }

  lemma ApartSymmetric(r: Root, blk: nat, r': Root, blk': nat)
    requires RootsApart(r, blk, r', blk')
    ensures RootsApart(r', blk', r, blk)
  {
  }

  lemma RetainedFirm(v: seq<Block>, m: seq<set<Block>>, cfg: Config, cur: Gen, truth: map<nat, Contents>,
                     lost: set<nat>, f: Ref)
    requires GenOk(v, m, cfg, cur, truth, lost)
    requires f == RefOf(cfg, cur.root, cur.blk) || Has(cur.root, lost, f)
    ensures RefFirm(v, m, cfg, f, truth)
  {
  }

  lemma FreshApart(o: Obj, p: Obj, used: set<nat>, txused: set<nat>)
    requires Extent(o) <= txused - used && Extent(p) <= used
    ensures SharedOrApart(o, p) && SharedOrApart(p, o)
  {
    if o.nblk != 0 && p.nblk != 0 && Overlap(o.blk, o.nblk, p.blk, p.nblk) {
      var b := if o.blk < p.blk then p.blk else o.blk;
      assert !(b in Extent(o) && b in Extent(p));
      assert Covers(o, b) && Covers(p, b);
    }
  }

  /** The objects of the new root against one retained generation. */
  lemma NewApartFrom(cur: Root, w: Root, blk: nat, used: set<nat>, txused: set<nat>, r: Root, rblk: nat, curBlk: nat)
    requires TxObjs(cur, w.objs, used, txused) && blk !in used
    requires RootsApart(cur, curBlk, r, rblk) && RootBlocks(r, rblk) <= used
    ensures RootsApart(w, blk, r, rblk)
  {
    forall p <- r.objs ensures Extent(p) <= used && !Covers(p, blk) {
      assert forall b <- Extent(p) :: b in RootBlocks(r, rblk);
      assert Covers(p, blk) ==> blk in Extent(p);
    }
    forall o <- w.objs, p <- r.objs ensures SharedOrApart(o, p) && !Covers(o, rblk) {
      if o !in cur.objs {
        FreshApart(o, p, used, txused);
        assert Covers(o, rblk) ==> rblk in Extent(o);
        assert rblk in RootBlocks(r, rblk);
      }
    }
    forall o <- w.objs ensures !Covers(o, rblk) {
      if o !in cur.objs {
        assert Covers(o, rblk) ==> rblk in Extent(o);
        assert rblk in RootBlocks(r, rblk);
      }
    }
  }

  /** A generation committed over one whose history is sound outside `lost` is like it. */
  lemma NewWhole(v: seq<Block>, m: seq<set<Block>>, cfg: Config, cur: Gen, truth: map<nat, Contents>, lost: set<nat>,
                 w: Root, blk: nat, used: set<nat>, txused: set<nat>)
    requires GenOk(v, m, cfg, cur, truth, lost) && used == UsedBlocks(v, cfg.n, cur.root, cur.blk, cfg.sum)
    requires RootSane(w, cfg.n) && TxObjs(cur.root, w.objs, used, txused)
    requires blk !in used && forall o <- w.objs :: !Covers(o, blk)
    requires forall f <- Refs(w) :: f == RefOf(cfg, cur.root, cur.blk) || f in Refs(cur.root)
    ensures Whole(v, m, cfg, w, blk, truth, lost)
  {
    forall f, g | Has(w, lost, f) && Has(w, lost, g)
      ensures RefFirm(v, m, cfg, f, truth) && RefFirm(v, m, cfg, g, truth)
      ensures RootsApart(v[f.blk].root, f.blk, v[g.blk].root, g.blk)
    {
      RetainedApart(v, m, cfg, cur, truth, lost, f, g);
    }
    UsedGuards(v, m, cfg, cur, truth, lost);
    forall f | Has(w, lost, f) ensures RefFirm(v, m, cfg, f, truth) && RootsApart(w, blk, v[f.blk].root, f.blk) {
      RetainedApart(v, m, cfg, cur, truth, lost, RefOf(cfg, cur.root, cur.blk), f);
      NewApartFrom(cur.root, w, blk, used, txused, v[f.blk].root, f.blk, cur.blk);
    }
    SelfApart(w, blk, cfg.n);
  }

  lemma SelfApart(w: Root, blk: nat, n: nat)
    requires ObjsShaped(w.objs, w.gen, w.nextOid, n) && forall o <- w.objs :: !Covers(o, blk)
    ensures RootsApart(w, blk, w, blk)
  {
    forall o <- w.objs, p <- w.objs ensures SharedOrApart(o, p) {
      var i :| 0 <= i < |w.objs| && w.objs[i] == o;
      var j :| 0 <= j < |w.objs| && w.objs[j] == p;
      if i < j {
        assert ObjsApart(w.objs[i], w.objs[j]);
      } else if j < i {
        assert ObjsApart(w.objs[j], w.objs[i]);
      }
    }
  }

  // ---- put and delete ----

  lemma TxExtents(cur: Root, curBlk: nat, objs: seq<Obj>, used: set<nat>, txused: set<nat>, o: Obj)
    requires TxObjs(cur, objs, used, txused) && RootBlocks(cur, curBlk) <= used && o in objs
    ensures Extent(o) <= used + txused
  {
    if o in cur.objs {
      assert forall b <- Extent(o) :: b in RootBlocks(cur, curBlk);
    }
  }

  function WithObj(objs: seq<Obj>, idx: int, o: Obj): seq<Obj>
    requires -1 <= idx < |objs|
  {
    if idx < 0 then objs + [o] else objs[idx := o]
  }

  /** `o` replaces the object at `idx`, or is new if idx is -1: it has the identity of what it
      replaces, and its extent is fresh. */
  ghost predicate NewVersion(objs: seq<Obj>, idx: int, o: Obj, nextOid: nat) {
    && -1 <= idx < |objs|
    && (if idx < 0 then o.oid == nextOid && forall p <- objs :: p.name != o.name
        else o.oid == objs[idx].oid && o.name == objs[idx].name)
  }

  /** What a put records: the next version of the object, or a new object. */
  function PutObj(work: Root, idx: int, name: string, kind: nat, blk: nat, data: Bytes, gen: nat, sum: Checksums): Obj
    requires -1 <= idx < |work.objs|
  {
    var o := if idx < 0 then Obj(work.nextOid, 0, 0, 0, 0, 0, 0, 0, name) else work.objs[idx];
    Obj(o.oid, gen, (o.version + 1) % TWO32, blk, |data|, sum.data(data), kind, NblkFor(|data|), o.name)
  }

  function PutRoot(work: Root, idx: int, o: Obj): Root
    requires -1 <= idx < |work.objs|
  {
    work.(objs := WithObj(work.objs, idx, o), nextOid := if idx < 0 then work.nextOid + 1 else work.nextOid)
  }

  /** The next put to `name` takes its 32-bit version counter to 0. */
  predicate Wraps(objs: seq<Obj>, name: string) {
    exists o <- objs :: o.name == name && (o.version + 1) % TWO32 == 0
  }

  lemma OneName(objs: seq<Obj>, gen: nat, nextOid: nat, n: nat, i: nat, j: nat)
    requires ObjsShaped(objs, gen, nextOid, n) && i < |objs| && j < |objs| && objs[i].name == objs[j].name
    ensures i == j
  {
    assert i < j ==> ObjsApart(objs[i], objs[j]);
    assert j < i ==> ObjsApart(objs[j], objs[i]);
  }

  /** With all counters in order before a put, they are afterwards exactly if none wrapped. */
  ghost predicate PutVersions(objs: seq<Obj>, objs': seq<Obj>, name: string) {
    VersionsOk(objs) ==> (VersionsOk(objs') <==> !Wraps(objs, name))
  }

  lemma PutVersionsOk(work: Root, idx: int, name: string, kind: nat, blk: nat, data: Bytes, gen: nat, nextOid: nat,
                      n: nat, sum: Checksums)
    requires -1 <= idx < |work.objs| && ObjsShaped(work.objs, gen, nextOid, n)
    requires if idx < 0 then forall o <- work.objs :: o.name != name else work.objs[idx].name == name
    ensures PutVersions(work.objs, PutRoot(work, idx, PutObj(work, idx, name, kind, blk, data, gen, sum)).objs, name)
  {
    var o := PutObj(work, idx, name, kind, blk, data, gen, sum);
    var objs' := WithObj(work.objs, idx, o);
    assert objs'[if idx < 0 then |work.objs| else idx] == o && o in objs';
    if Wraps(work.objs, name) {
      var i :| 0 <= i < |work.objs| && work.objs[i].name == name && (work.objs[i].version + 1) % TWO32 == 0;
      assert work.objs[i] in work.objs;
      OneName(work.objs, gen, nextOid, n, i, idx);
    } else if VersionsOk(work.objs) {
      forall p <- objs' ensures p.version != 0 {
        if p != o {
          assert p in work.objs;
        } else if idx >= 0 {
          assert work.objs[idx] in work.objs;
        }
      }
    }
  }

  lemma SpanDisjoint(o: Obj, p: Obj, taken: set<nat>)
    requires Extent(o) !! taken && Extent(p) <= taken
    ensures !(o.nblk != 0 && p.nblk != 0 && Overlap(o.blk, o.nblk, p.blk, p.nblk))
    ensures !(o.nblk != 0 && p.nblk != 0 && Overlap(p.blk, p.nblk, o.blk, o.nblk))
  {
    if o.nblk != 0 && p.nblk != 0 && Overlap(o.blk, o.nblk, p.blk, p.nblk) {
      var b := if o.blk < p.blk then p.blk else o.blk;
      assert !(b in Extent(o) && b in Extent(p));
      assert Covers(o, b) && Covers(p, b);
    }
  }

  lemma PutShaped(objs: seq<Obj>, gen: nat, nextOid: nat, nextOid': nat, blocks: nat, idx: int, o: Obj, taken: set<nat>)
    requires ObjsShaped(objs, gen, nextOid, blocks) && NewVersion(objs, idx, o, nextOid)
    requires nextOid' == (if idx < 0 then nextOid + 1 else nextOid) && ObjShaped(o, gen, nextOid', blocks)
    requires Extent(o) !! taken && forall p <- objs :: Extent(p) <= taken
    ensures ObjsShaped(WithObj(objs, idx, o), gen, nextOid', blocks)
  {
    var objs' := WithObj(objs, idx, o);
    forall p <- objs' ensures ObjShaped(p, gen, nextOid', blocks) {
      if p != o {
        assert p in objs;
      }
    }
    forall i, j | 0 <= j < i < |objs'| ensures ObjsApart(objs'[j], objs'[i]) {
      if j < |objs| {
        assert objs[j] in objs;
        SpanDisjoint(o, objs[j], taken);
      }
      if i < |objs| {
        assert objs[i] in objs;
        SpanDisjoint(o, objs[i], taken);
        assert ObjsApart(objs[j], objs[i]);
      }
      if objs'[i] == o && j < |objs| && objs'[j] == objs[j] {
        assert ObjShaped(objs[j], gen, nextOid, blocks);
      }
    }
  }

  /** A put: the transaction now holds `data` under the name, in blocks nothing else uses. */
  lemma TxPut(cfg: Config, cur: Root, curBlk: nat, work: Root, used: set<nat>, txused: set<nat>,
              idx: int, o: Obj, nextOid': nat)
    requires TxOk(cfg, cur, curBlk, work, used, txused) && RootBlocks(cur, curBlk) <= used
    requires NewVersion(work.objs, idx, o, work.nextOid) && (idx < 0 ==> |work.objs| < OBJ_MAX)
    requires nextOid' == (if idx < 0 then work.nextOid + 1 else work.nextOid)
    requires ObjShaped(o, cur.gen + 1, nextOid', cfg.n) && Extent(o) !! (used + txused)
    ensures TxOk(cfg, cur, curBlk, work.(objs := WithObj(work.objs, idx, o), nextOid := nextOid'), used,
                 txused + Extent(o))
  {
    forall p <- work.objs ensures Extent(p) <= used + txused {
      TxExtents(cur, curBlk, work.objs, used, txused, p);
    }
    PutShaped(work.objs, cur.gen + 1, work.nextOid, nextOid', cfg.n, idx, o, used + txused);
    var objs' := WithObj(work.objs, idx, o);
    forall p <- objs' ensures p in cur.objs || Extent(p) <= (txused + Extent(o)) - used {
      if p != o {
        assert p in work.objs;
      }
    }
    forall b <- Extent(o) ensures FIRST_DATA <= b < cfg.n {
    }
  }

  lemma HoldsPut(v: seq<Block>, objs: seq<Obj>, c: Contents, sum: Checksums, idx: int, o: Obj, data: Bytes,
                 nextOid: nat, gen: nat, n: nat)
    requires Holds(v, objs, c, sum) && NewVersion(objs, idx, o, nextOid) && ObjsShaped(objs, gen, nextOid, n)
    requires ExtentOk(v, o, sum) && ObjBytes(v, o) == data
    ensures Holds(v, WithObj(objs, idx, o), c[o.name := data], sum)
  {
    var objs' := WithObj(objs, idx, o);
    forall i | 0 <= i < |objs'| ensures objs'[i] != o ==> objs'[i] in objs && objs'[i].name != o.name {
      if idx >= 0 && i < idx {
        assert ObjsApart(objs[i], objs[idx]);
      } else if idx >= 0 && i > idx {
        assert ObjsApart(objs[idx], objs[i]);
      }
    }
    assert Names(objs') == Names(objs) + {o.name} by {
      assert o in objs' by { assert objs'[if idx < 0 then |objs| else idx] == o; }
      forall i | 0 <= i < |objs| ensures objs[i].name in Names(objs') {
        assert objs'[i] in objs' && objs'[i].name == objs[i].name;
      }
    }
  }

  function WithoutObj(objs: seq<Obj>, idx: nat): seq<Obj>
    requires idx < |objs|
  {
    objs[..idx] + objs[idx + 1..]
  }

  lemma TxDel(cfg: Config, cur: Root, curBlk: nat, work: Root, used: set<nat>, txused: set<nat>, idx: nat)
    requires TxOk(cfg, cur, curBlk, work, used, txused) && idx < |work.objs|
    ensures TxOk(cfg, cur, curBlk, work.(objs := WithoutObj(work.objs, idx)), used, txused)
  {
    var objs, objs' := work.objs, WithoutObj(work.objs, idx);
    forall i, j | 0 <= j < i < |objs'| ensures ObjsApart(objs'[j], objs'[i]) {
      assert ObjsApart(objs[if j < idx then j else j + 1], objs[if i < idx then i else i + 1]);
    }
    assert forall o <- objs' :: o in objs;
  }

  lemma HoldsDel(v: seq<Block>, objs: seq<Obj>, c: Contents, sum: Checksums, idx: nat, gen: nat, nextOid: nat, n: nat)
    requires Holds(v, objs, c, sum) && idx < |objs| && ObjsShaped(objs, gen, nextOid, n)
    ensures Holds(v, WithoutObj(objs, idx), c - {objs[idx].name}, sum)
  {
    var objs' := WithoutObj(objs, idx);
    forall i | 0 <= i < |objs'| ensures objs'[i] in objs && objs'[i].name != objs[idx].name {
      if i < idx {
        assert ObjsApart(objs[i], objs[idx]);
      } else {
        assert ObjsApart(objs[idx], objs[i + 1]);
      }
    }
    assert Names(objs') == Names(objs) - {objs[idx].name} by {
      forall i | 0 <= i < |objs| && i != idx ensures objs[i] in objs' {
        assert objs'[if i < idx then i else i - 1] == objs[i];
      }
    }
  }

  // ---- the disk under an open transaction ----

  lemma TxGrow(cfg: Config, cur: Root, curBlk: nat, work: Root, used: set<nat>, txused: set<nat>, blk: nat, n: nat)
    requires TxOk(cfg, cur, curBlk, work, used, txused) && FIRST_DATA <= blk && blk + n <= cfg.n
    ensures TxOk(cfg, cur, curBlk, work, used, txused + Span(blk, n))
  {
  }

  /** A write to fresh blocks changes nothing that the transaction references. */
  lemma TxHoldsFrame(cfg: Config, cur: Root, curBlk: nat, work: Root, used: set<nat>, txused: set<nat>, c: Contents,
                     v: seq<Block>, v': seq<Block>, blk: nat, n: nat)
    requires TxOk(cfg, cur, curBlk, work, used, txused) && RootBlocks(cur, curBlk) <= used
    requires Holds(v, work.objs, c, cfg.sum) && SameOutside(v, v', blk, n) && Span(blk, n) !! used + txused
    ensures Holds(v', work.objs, c, cfg.sum)
  {
    forall o <- work.objs, b | o.blk <= b < o.blk + o.nblk && b < |v| ensures v'[b] == v[b] {
      TxExtents(cur, curBlk, work.objs, used, txused, o);
      assert Covers(o, b) && b in Extent(o);
      assert !Within(blk, n, b);
    }
    HoldsFrame(v, v', work.objs, c, cfg.sum);
  }

  // ---- the transaction as the store's operations see it ----

  ghost predicate TxKey(k: nat, v: seq<Block>, work: Root, txused: set<nat>, c: Contents) { true }

  /** The transaction is well formed and what it references holds the objects of `c`. */
  ghost predicate TxSafe(v: seq<Block>, cfg: Config, cur: Root, curBlk: nat, work: Root, used: set<nat>,
                         txused: set<nat>, c: Contents)
  {
    forall k {:trigger TxKey(k, v, work, txused, c)} :: TxKey(k, v, work, txused, c) ==>
      && RootBlocks(cur, curBlk) <= used && RootSane(cur, cfg.n) && FIRST_DATA <= curBlk < cfg.n
      && TxOk(cfg, cur, curBlk, work, used, txused) && Holds(v, work.objs, c, cfg.sum)
  }

  lemma TxSafeBegin(v: seq<Block>, m: seq<set<Block>>, cfg: Config, l: Ledger, used: set<nat>)
    requires Safe(v, m, cfg, l) && InUse(v, cfg, Top(l).root, Top(l).blk, used)
    ensures Top(l).root.gen in l.truth
    ensures TxSafe(v, cfg, Top(l).root, Top(l).blk, Top(l).root, used, {}, l.truth[Top(l).root.gen])
  {
    assert UseKey(0, v, used);
    SafeTop(v, m, cfg, l);
    TxBegin(cfg, Top(l).root, Top(l).blk, used);
  }

  lemma TxSafeWrite(v: seq<Block>, v': seq<Block>, cfg: Config, cur: Root, curBlk: nat, work: Root, used: set<nat>,
                    txused: set<nat>, c: Contents, blk: nat, n: nat)
    requires TxSafe(v, cfg, cur, curBlk, work, used, txused, c)
    requires SameOutside(v, v', blk, n) && Span(blk, n) !! used + txused && FIRST_DATA <= blk && blk + n <= cfg.n
    ensures TxSafe(v', cfg, cur, curBlk, work, used, txused, c)
    ensures TxSafe(v', cfg, cur, curBlk, work, used, txused + Span(blk, n), c)
  {
    assert TxKey(0, v, work, txused, c);
    TxHoldsFrame(cfg, cur, curBlk, work, used, txused, c, v, v', blk, n);
    TxGrow(cfg, cur, curBlk, work, used, txused, blk, n);
  }

  /** What a put records is well shaped and keeps the identity of what it replaces. */
  lemma PutObjShaped(v: seq<Block>, cfg: Config, cur: Root, curBlk: nat, work: Root, used: set<nat>, txused: set<nat>,
                     c: Contents, idx: int, name: string, kind: nat, blk: nat, data: Bytes)
    requires TxSafe(v, cfg, cur, curBlk, work, used, txused, c)
    requires -1 <= idx < |work.objs| && NameOk(name) && |data| <= OBJ_MAX_BYTES
    requires if idx < 0 then forall o <- work.objs :: o.name != name else work.objs[idx].name == name
    requires if data == [] then blk == 0 else FIRST_DATA <= blk && blk + NblkFor(|data|) <= cfg.n
    ensures var o := PutObj(work, idx, name, kind, blk, data, cur.gen + 1, cfg.sum);
      && ObjShaped(o, cur.gen + 1, PutRoot(work, idx, o).nextOid, cfg.n)
      && NewVersion(work.objs, idx, o, work.nextOid)
      && PutVersions(work.objs, PutRoot(work, idx, o).objs, name)
  {
    assert TxKey(0, v, work, txused, c);
    if idx >= 0 {
      assert ObjShaped(work.objs[idx], cur.gen + 1, work.nextOid, cfg.n);
    }
    PutVersionsOk(work, idx, name, kind, blk, data, cur.gen + 1, work.nextOid, cfg.n, cfg.sum);
  }

  /** A put whose extent is stored leaves a well-formed transaction that holds the new bytes. */
  lemma TxSafePut(v: seq<Block>, cfg: Config, cur: Root, curBlk: nat, work: Root, used: set<nat>, txused: set<nat>,
                  c: Contents, idx: int, o: Obj, data: Bytes)
    requires TxSafe(v, cfg, cur, curBlk, work, used, txused, c)
    requires NewVersion(work.objs, idx, o, work.nextOid) && (idx < 0 ==> |work.objs| < OBJ_MAX)
    requires ObjShaped(o, cur.gen + 1, PutRoot(work, idx, o).nextOid, cfg.n)
    requires o.len == |data| && o.nblk == NblkFor(o.len) && o.crc == cfg.sum.data(data)
    requires Extent(o) !! used + txused && Stored(v, o.blk, Pieces(data))
    ensures TxSafe(v, cfg, cur, curBlk, PutRoot(work, idx, o), used, txused + Extent(o), c[o.name := data])
  {
    assert TxKey(0, v, work, txused, c);
    HoldsStored(v, cfg, cur, curBlk, work, used, txused, c, idx, o, data);
    TxPut(cfg, cur, curBlk, work, used, txused, idx, o, PutRoot(work, idx, o).nextOid);
  }

  lemma TxSafePutNew(v: seq<Block>, cfg: Config, cur: Root, curBlk: nat, work: Root, used: set<nat>, txused: set<nat>,
                     c: Contents, idx: int, name: string, kind: nat, blk: nat, data: Bytes)
    requires TxSafe(v, cfg, cur, curBlk, work, used, txused, c)
    requires -1 <= idx < |work.objs| && NameOk(name) && |data| <= OBJ_MAX_BYTES && (idx < 0 ==> |work.objs| < OBJ_MAX)
    requires if idx < 0 then forall o <- work.objs :: o.name != name else work.objs[idx].name == name
    requires if data == [] then blk == 0 else FIRST_DATA <= blk && blk + NblkFor(|data|) <= cfg.n
    requires Span(blk, NblkFor(|data|)) !! used + txused && Stored(v, blk, Pieces(data))
    ensures var w := PutRoot(work, idx, PutObj(work, idx, name, kind, blk, data, cur.gen + 1, cfg.sum));
      && TxSafe(v, cfg, cur, curBlk, w, used, txused + Span(blk, NblkFor(|data|)), c[name := data])
      && PutVersions(work.objs, w.objs, name)
  {
    PutObjShaped(v, cfg, cur, curBlk, work, used, txused, c, idx, name, kind, blk, data);
    TxSafePut(v, cfg, cur, curBlk, work, used, txused, c, idx,
              PutObj(work, idx, name, kind, blk, data, cur.gen + 1, cfg.sum), data);
  }

  lemma HoldsStored(v: seq<Block>, cfg: Config, cur: Root, curBlk: nat, work: Root, used: set<nat>, txused: set<nat>,
                    c: Contents, idx: int, o: Obj, data: Bytes)
    requires TxOk(cfg, cur, curBlk, work, used, txused) && Holds(v, work.objs, c, cfg.sum)
    requires NewVersion(work.objs, idx, o, work.nextOid)
    requires o.len == |data| && o.nblk == NblkFor(o.len) && o.crc == cfg.sum.data(data)
    requires Stored(v, o.blk, Pieces(data))
    ensures Holds(v, WithObj(work.objs, idx, o), c[o.name := data], cfg.sum)
  {
    PutReadsBack(v, o, data, cfg.sum);
    HoldsPut(v, work.objs, c, cfg.sum, idx, o, data, work.nextOid, cur.gen + 1, cfg.n);
  }

  lemma TxSafeDel(v: seq<Block>, cfg: Config, cur: Root, curBlk: nat, work: Root, used: set<nat>, txused: set<nat>,
                  c: Contents, idx: nat)
    requires TxSafe(v, cfg, cur, curBlk, work, used, txused, c) && idx < |work.objs|
    ensures TxSafe(v, cfg, cur, curBlk, work.(objs := WithoutObj(work.objs, idx)), used, txused,
                   c - {work.objs[idx].name})
    ensures VersionsOk(work.objs) ==> VersionsOk(WithoutObj(work.objs, idx))
  {
    assert TxKey(0, v, work, txused, c);
    TxDel(cfg, cur, curBlk, work, used, txused, idx);
    HoldsDel(v, work.objs, c, cfg.sum, idx, cur.gen + 1, work.nextOid, cfg.n);
  }

  lemma TxSafePin(v: seq<Block>, cfg: Config, cur: Root, curBlk: nat, work: Root, used: set<nat>, txused: set<nat>,
                  c: Contents, p: Pin)
    requires TxSafe(v, cfg, cur, curBlk, work, used, txused, c)
    requires |work.pins| < PIN_MAX && PinNameOk(p.name) && p.ref in Retained(cfg, cur, curBlk)
    requires forall q <- work.pins :: q.name != p.name
    ensures TxSafe(v, cfg, cur, curBlk, work.(pins := work.pins + [p]), used, txused, c)
  {
    assert TxKey(0, v, work, txused, c);
  }

  lemma TxSafeUnpin(v: seq<Block>, cfg: Config, cur: Root, curBlk: nat, work: Root, used: set<nat>, txused: set<nat>,
                    c: Contents, i: nat)
    requires TxSafe(v, cfg, cur, curBlk, work, used, txused, c) && i < |work.pins|
    ensures TxSafe(v, cfg, cur, curBlk, work.(pins := work.pins[..i] + work.pins[i + 1..]), used, txused, c)
  {
    assert TxKey(0, v, work, txused, c);
    var pins' := work.pins[..i] + work.pins[i + 1..];
    forall a, b | 0 <= b < a < |pins'| ensures pins'[b].name != pins'[a].name {
      assert work.pins[if b < i then b else b + 1].name != work.pins[if a < i then a else a + 1].name;
    }
  }

  // ---- commit ----

  lemma TxVersions(v: seq<Block>, cfg: Config, cur: Root, curBlk: nat, work: Root, used: set<nat>, txused: set<nat>,
                   c: Contents)
    requires TxSafe(v, cfg, cur, curBlk, work, used, txused, c)
    ensures VersionsOk(cur.objs)
  {
    assert TxKey(0, v, work, txused, c);
  }

  /** The names of the transaction's objects. */
  lemma TxNames(v: seq<Block>, cfg: Config, cur: Root, curBlk: nat, work: Root, used: set<nat>, txused: set<nat>,
                c: Contents)
    requires TxSafe(v, cfg, cur, curBlk, work, used, txused, c)
    ensures forall name :: name in c <==> exists o <- work.objs :: o.name == name
  {
    assert TxKey(0, v, work, txused, c);
  }

  lemma {:induction false} NamesSize(objs: seq<Obj>)
    requires forall i, j | 0 <= j < i < |objs| :: objs[j].name != objs[i].name
    ensures |Names(objs)| == |objs|
  {
    if objs != [] {
      var k := |objs| - 1;
      NamesSize(objs[..k]);
      assert Names(objs) == Names(objs[..k]) + {objs[k].name};
    }
  }

  /** What a client of an open transaction may know. */
  lemma TxFacts(v: seq<Block>, cfg: Config, cur: Root, curBlk: nat, work: Root, used: set<nat>, txused: set<nat>,
                c: Contents, bootId: nat, text: string, keep: nat)
    requires TxSafe(v, cfg, cur, curBlk, work, used, txused, c) && keep >= 1
    ensures forall f <- Refs(NewRoot(cfg, cur, curBlk, work, bootId, text, keep)) :: f in Retained(cfg, cur, curBlk)
    ensures (forall f <- Refs(cur) :: f.gen < cur.gen) && RETAIN_MIN <= cur.retain <= RETAIN_MAX
    ensures work.retain == cur.retain
    ensures |work.objs| == |c|
  {
    assert TxKey(0, v, work, txused, c);
    NewRootRefs(cfg, cur, curBlk, work, bootId, text, keep, used, txused);
    forall f <- Refs(cur) ensures f.gen < cur.gen {
      RefGens(cur, cfg.n, f);
    }
    NamesSize(work.objs);
    assert |c.Keys| == |c|;
  }

  lemma TxRetain(v: seq<Block>, cfg: Config, cur: Root, curBlk: nat, work: Root, used: set<nat>, txused: set<nat>,
                 c: Contents)
    requires TxSafe(v, cfg, cur, curBlk, work, used, txused, c)
    ensures RETAIN_MIN <= cur.retain <= RETAIN_MAX
  {
    assert TxKey(0, v, work, txused, c);
  }

  lemma NewRootFirm(v: seq<Block>, m: seq<set<Block>>, cfg: Config, w: Root, blk: nat, c: Contents)
    requires FIRST_DATA <= blk < cfg.n <= |v| == |m| && forall b | 0 <= b < |v| :: m[b] == {v[b]}
    requires v[blk] == RootBlock(w) && w.storeId == cfg.id && RootSane(w, cfg.n) && Holds(v, w.objs, c, cfg.sum)
    ensures Firm(v, m, cfg, w, blk, c)
  {
    RootBlocksInRange(w, blk, cfg.n);
  }

  /** Once the root and the extents are flushed the superblock may be written. */
  lemma ReadyToPublish(v0: seq<Block>, v: seq<Block>, m: seq<set<Block>>, cfg: Config, l: Ledger, work: Root,
                       used: set<nat>, txused: set<nat>, c: Contents, blk: nat, bootId: nat, text: string, keep: nat)
    requires TxSafe(v0, cfg, l.base.root, l.base.blk, work, used, txused, c) && VersionsOk(work.objs)
    requires Safe(v, m, cfg, l) && l.next.None? && l.base.slot < 2
    requires |m| == |v| && forall b | 0 <= b < |v| :: m[b] == {v[b]}
    requires InUse(v, cfg, l.base.root, l.base.blk, used)
    requires LabelOk(text) && 1 <= keep < RETAIN_MAX
    requires FIRST_DATA <= blk < cfg.n && blk !in used + txused && SameOutside(v0, v, blk, 1)
    requires blk < |v| && v[blk] == RootBlock(NewRoot(cfg, l.base.root, l.base.blk, work, bootId, text, keep))
    ensures Ready(v, m, cfg, l,
                  Gen(1 - l.base.slot, blk, NewRoot(cfg, l.base.root, l.base.blk, work, bootId, text, keep)), c)
  {
    SafeInv(v, m, cfg, l);
    NewGenOk(v0, v, m, cfg, l, work, used, txused, c, blk, bootId, text, keep);
  }

  lemma NewGenOk(v0: seq<Block>, v: seq<Block>, m: seq<set<Block>>, cfg: Config, l: Ledger, work: Root,
                 used: set<nat>, txused: set<nat>, c: Contents, blk: nat, bootId: nat, text: string, keep: nat)
    requires TxSafe(v0, cfg, l.base.root, l.base.blk, work, used, txused, c) && VersionsOk(work.objs)
    requires GenOk(v, m, cfg, l.base, l.truth, l.baseLost) && cfg.n <= |v|
    requires |m| == |v| && forall b | 0 <= b < |v| :: m[b] == {v[b]}
    requires InUse(v, cfg, l.base.root, l.base.blk, used)
    requires LabelOk(text) && 1 <= keep < RETAIN_MAX && l.base.slot < 2
    requires FIRST_DATA <= blk < cfg.n && blk !in used + txused && SameOutside(v0, v, blk, 1)
    requires v[blk] == RootBlock(NewRoot(cfg, l.base.root, l.base.blk, work, bootId, text, keep))
    ensures var w := NewRoot(cfg, l.base.root, l.base.blk, work, bootId, text, keep);
            GenOk(v, m, cfg, Gen(1 - l.base.slot, blk, w), l.truth[w.gen := c], l.baseLost)
  {
    var w := NewRoot(cfg, l.base.root, l.base.blk, work, bootId, text, keep);
    assert TxKey(0, v0, work, txused, c);
    assert UseKey(0, v, used);
    assert Span(blk, 1) !! used + txused;
    TxHoldsFrame(cfg, l.base.root, l.base.blk, work, used, txused, c, v0, v, blk, 1);
    NewRootSane(cfg, l.base.root, l.base.blk, work, bootId, text, keep, used, txused);
    NewRootFirm(v, m, cfg, w, blk, c);
    NewGenWhole(v, m, cfg, l, work, used, txused, c, blk, bootId, text, keep);
  }

  lemma NewGenWhole(v: seq<Block>, m: seq<set<Block>>, cfg: Config, l: Ledger, work: Root,
                    used: set<nat>, txused: set<nat>, c: Contents, blk: nat, bootId: nat, text: string, keep: nat)
    requires GenOk(v, m, cfg, l.base, l.truth, l.baseLost)
    requires used == UsedBlocks(v, cfg.n, l.base.root, l.base.blk, cfg.sum)
    requires TxOk(cfg, l.base.root, l.base.blk, work, used, txused) && keep >= 1
    requires RootBlocks(l.base.root, l.base.blk) <= used && blk !in used + txused
    requires RootSane(NewRoot(cfg, l.base.root, l.base.blk, work, bootId, text, keep), cfg.n)
    ensures var w := NewRoot(cfg, l.base.root, l.base.blk, work, bootId, text, keep);
      Whole(v, m, cfg, w, blk, l.truth[w.gen := c], l.baseLost)
  {
    var w := NewRoot(cfg, l.base.root, l.base.blk, work, bootId, text, keep);
    forall o <- w.objs ensures !Covers(o, blk) {
      TxExtents(l.base.root, l.base.blk, work.objs, used, txused, o);
      assert Covers(o, blk) ==> blk in Extent(o);
    }
    NewRootRefs(cfg, l.base.root, l.base.blk, work, bootId, text, keep, used, txused);
    NewWhole(v, m, cfg, l.base, l.truth, l.baseLost, w, blk, used, txused);
    WholeExtend(v, m, cfg, w, blk, l.truth, l.baseLost, w.gen, c);
  }

  /** A root with a wrapped version counter is committed like any other, but no mount accepts it. */
  lemma WrappedRootRejected(v: seq<Block>, cfg: Config, g: Gen)
    requires g.slot < 2 <= |v| && g.blk < |v|
    requires v[g.blk] == RootBlock(g.root) && v[g.slot] == SuperOf(cfg, g) && !VersionsOk(g.root.objs)
    ensures !Mountable(v, g.slot, cfg.sum)
  {
  }
}
