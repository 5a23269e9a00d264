/** Where the guarantee on retained history ends: a store mounted again over a superblock that no flush
    has covered may write over what the generation below it still retains. */
module StoreHistory {
  import opened Common
  import opened StoreFormat
  import opened StoreRecovery
  import opened StoreInvariant
  import opened StoreTransaction
  import opened VolatileDisk

  ghost predicate ReadsBack(v: seq<Block>, cfg: Config, f: Ref, truth: map<nat, Contents>) {
    var lr := LoadRoot(v, cfg.n, f, cfg.sum);
    lr.Some? && f.gen in truth && Holds(v, lr.value.objs, truth[f.gen], cfg.sum)
  }

  /** Everything that r retains reads back as it was committed. */
  ghost predicate HistoryReads(v: seq<Block>, cfg: Config, r: Root, truth: map<nat, Contents>) {
    forall f <- Refs(r) :: ReadsBack(v, cfg, f, truth)
  }

  datatype Moment = Moment(v: seq<Block>, m: seq<set<Block>>)

  /** A write to a block that is not in use, whatever becomes of it. */
  ghost predicate WroteFree(x: Moment, y: Moment, n: nat, used: set<nat>) {
    |x.m| == |x.v| && Live(y.v, y.m) && exists blk, data, ok :: WroteAt(x, y, n, used, blk, data, ok)
  }

  ghost predicate WroteAt(x: Moment, y: Moment, n: nat, used: set<nat>, blk: nat, data: Block, ok: bool)
    requires |x.m| == |x.v|
  {
    blk < n && blk !in used && Wrote(x.v, x.m, y.v, y.m, blk, [data], Junk, ok)
  }

  /** What may happen to a mounted store until its next commit: writes to blocks that it does not use, as many
      as there may be, and then a crash. */
  ghost predicate WritesThenCrash(v: seq<Block>, m: seq<set<Block>>, cfg: Config, l: Ledger, trail: seq<Moment>,
                                  v2: seq<Block>, m2: seq<set<Block>>) {
    var used := UsedBlocks(v, cfg.n, Top(l).root, Top(l).blk, cfg.sum);
    && |trail| > 0 && trail[0] == Moment(v, m)
    && (forall i | 0 < i < |trail| :: WroteFree(trail[i - 1], trail[i], cfg.n, used))
    && Crashed(trail[|trail| - 1].m, v2, m2)
  }

  /** Whatever is written and whatever a crash leaves of it, the history of the generation that the next
      mount accepts reads back. */
  ghost predicate HistorySurvives(v: seq<Block>, m: seq<set<Block>>, cfg: Config, l: Ledger)
    requires |m| == |v| && l.base.slot < 2 <= |v|
  {
    forall trail, v2, m2 :: WritesThenCrash(v, m, cfg, l, trail, v2, m2) ==>
      |v2| == |v| && HistoryReads(v2, cfg, Top(Recovered(l, cfg, v2)).root, l.truth)
  }

  /** Writes elsewhere leave what is in use as it was. */
  lemma {:induction false} TrailKept(v: seq<Block>, m: seq<set<Block>>, n: nat, used: set<nat>, trail: seq<Moment>)
    requires Live(v, m) && |trail| > 0 && trail[0] == Moment(v, m)
    requires forall i | 0 < i < |trail| :: WroteFree(trail[i - 1], trail[i], n, used)
    ensures var x := trail[|trail| - 1]; Kept(v, m, x.v, x.m, used)
    decreases |trail|
  {
    if |trail| > 1 {
      var k := |trail| - 1;
      var x, y := trail[k - 1], trail[k];
      assert trail[..k][|trail[..k]| - 1] == x;
      TrailKept(v, m, n, used, trail[..k]);
      assert WroteFree(x, y, n, used);
      var blk, data, ok :| WroteAt(x, y, n, used, blk, data, ok);
      KeptOutside(x.v, x.m, y.v, y.m, used, blk, [data], ok);
    }
  }

  /** The generation that a crash may fall back to has no block outside those in use. */
  ghost predicate Covered(v: seq<Block>, cfg: Config, l: Ledger) {
    forall f <- Refs(l.base.root) :: f.blk < |v| && v[f.blk].RootBlock? ==>
      RootBlocks(v[f.blk].root, f.blk) <= UsedBlocks(v, cfg.n, Top(l).root, Top(l).blk, cfg.sum)
  }

  /** No crash takes the newest superblock away. */
  ghost predicate Anchored(v: seq<Block>, m: seq<set<Block>>, l: Ledger)
    requires |m| == |v| && l.base.slot < 2 <= |v|
  {
    m[1 - l.base.slot] == {v[1 - l.base.slot]}
  }

  lemma AllRead(v: seq<Block>, m: seq<set<Block>>, cfg: Config, g: Gen, truth: map<nat, Contents>)
    requires GenOk(v, m, cfg, g, truth, {})
    ensures HistoryReads(v, cfg, g.root, truth)
  {
    forall f <- Refs(g.root) ensures ReadsBack(v, cfg, f, truth) {
      assert Has(g.root, {}, f);
      assert RefFirm(v, m, cfg, f, truth);
    }
  }

  /** What the invariant says about the slots while the newest superblock may be only in the cache. */
  lemma SlotFacts(v: seq<Block>, m: seq<set<Block>>, cfg: Config, l: Ledger)
    requires Safe(v, m, cfg, l) && l.next.Some?
    ensures Live(v, m) && l.base.slot < 2 <= cfg.n <= |v|
    ensures l.next.value.slot == 1 - l.base.slot && v[1 - l.base.slot] == SuperOf(cfg, l.next.value)
  {
    SafeInv(v, m, cfg, l);
  }

  lemma BaseRef(v: seq<Block>, m: seq<set<Block>>, cfg: Config, l: Ledger, f: Ref)
    requires Safe(v, m, cfg, l) && l.baseLost == {} && f in Refs(l.base.root)
    ensures RefFirm(v, m, cfg, f, l.truth)
  {
    SafeInv(v, m, cfg, l);
    assert Has(l.base.root, {}, f);
  }

  lemma NextKept(v: seq<Block>, m: seq<set<Block>>, v': seq<Block>, m': seq<set<Block>>, cfg: Config, l: Ledger,
                 used: set<nat>)
    requires Safe(v, m, cfg, l) && l.next.Some? && l.nextLost == {}
    requires used == UsedBlocks(v, cfg.n, Top(l).root, Top(l).blk, cfg.sum) && Kept(v, m, v', m', used)
    ensures GenOk(v', m', cfg, l.next.value, l.truth, {})
  {
    SafeInv(v, m, cfg, l);
    GenWriteFree(v, m, v', m', cfg, l.next.value, l.truth, {}, used);
  }

  /** The base keeps its history if all of it is in use. */
  lemma BaseKept(v: seq<Block>, m: seq<set<Block>>, v': seq<Block>, m': seq<set<Block>>, cfg: Config, l: Ledger,
                 used: set<nat>)
    requires Safe(v, m, cfg, l) && l.next.Some? && l.baseLost == {} && Covered(v, cfg, l)
    requires used == UsedBlocks(v, cfg.n, Top(l).root, Top(l).blk, cfg.sum) && Kept(v, m, v', m', used)
    ensures GenOk(v', m', cfg, l.base, l.truth, {})
  {
    SafeInv(v, m, cfg, l);
    UsedGuardsBase(v, m, cfg, l.base, l.next.value.root, l.truth[l.base.root.gen]);
    forall f | Has(l.base.root, {}, f) ensures Kept(v, m, v', m', RootBlocks(v[f.blk].root, f.blk)) {
      assert RefFirm(v, m, cfg, f, l.truth);
    }
    GenFrame(v, m, v', m', cfg, l.base, l.truth, {});
  }

  /** A generation that a write left alone, after the crash. */
  lemma ReadAfterCrash(v: seq<Block>, m: seq<set<Block>>, v': seq<Block>, m': seq<set<Block>>, cfg: Config, g: Gen,
                       truth: map<nat, Contents>)
    requires GenOk(v, m, cfg, g, truth, {}) && Crashed(m, v', m')
    ensures HistoryReads(v', cfg, g.root, truth)
  {
    GenCrashed(v, m, v', m', cfg, g, truth, {});
    AllRead(v', m', cfg, g, truth);
  }

  lemma SlotAfterCrash(v: seq<Block>, m: seq<set<Block>>, v1: seq<Block>, m1: seq<set<Block>>, v2: seq<Block>,
                       m2: seq<set<Block>>, slot: nat, used: set<nat>)
    requires |m| == |v| && slot < |v| && slot in used && m[slot] == {v[slot]} && Kept(v, m, v1, m1, used)
    requires Crashed(m1, v2, m2)
    ensures |v2| == |v| && v2[slot] == v[slot]
  {
    assert v2[slot] in m1[slot];
  }

  lemma SurvivesIf(v: seq<Block>, m: seq<set<Block>>, cfg: Config, l: Ledger, trail: seq<Moment>, v2: seq<Block>,
                   m2: seq<set<Block>>)
    requires Safe(v, m, cfg, l) && l.next.Some? && l.baseLost == {} && l.nextLost == {}
    requires |m| == |v| && l.base.slot < 2 <= |v| && (Anchored(v, m, l) || Covered(v, cfg, l))
    requires WritesThenCrash(v, m, cfg, l, trail, v2, m2)
    ensures |v2| == |v| && HistoryReads(v2, cfg, Top(Recovered(l, cfg, v2)).root, l.truth)
  {
    var used := UsedBlocks(v, cfg.n, Top(l).root, Top(l).blk, cfg.sum);
    var g, x := l.next.value, trail[|trail| - 1];
    SlotFacts(v, m, cfg, l);
    TrailKept(v, m, cfg.n, used, trail);
    if Anchored(v, m, l) {
      SlotAfterCrash(v, m, x.v, x.m, v2, m2, g.slot, used);
    }
    if v2[g.slot] == SuperOf(cfg, g) {
      NextKept(v, m, x.v, x.m, cfg, l, used);
      ReadAfterCrash(x.v, x.m, v2, m2, cfg, g, l.truth);
    } else {
      BaseKept(v, m, x.v, x.m, cfg, l, used);
      ReadAfterCrash(x.v, x.m, v2, m2, cfg, l.base, l.truth);
    }
  }

  /** A block of a retained generation that the newer one does not use, written and torn by a crash that
      also takes the newer superblock away. */
  lemma LosesOtherwise(v: seq<Block>, m: seq<set<Block>>, cfg: Config, l: Ledger, data: Block, f: Ref, b: nat)
    returns (trail: seq<Moment>, v2: seq<Block>, m2: seq<set<Block>>)
    requires Safe(v, m, cfg, l) && l.next.Some? && l.baseLost == {} && |m| == |v| && l.base.slot < 2 <= |v|
    requires !Anchored(v, m, l)
    requires f in Refs(l.base.root) && f.blk < |v| && v[f.blk].RootBlock? && b in RootBlocks(v[f.blk].root, f.blk)
    requires b !in UsedBlocks(v, cfg.n, Top(l).root, Top(l).blk, cfg.sum)
    ensures WritesThenCrash(v, m, cfg, l, trail, v2, m2) && |v2| == |v|
    ensures Recovered(l, cfg, v2) == l.(next := None) && !ReadsBack(v2, cfg, f, l.truth)
  {
    var slot := 1 - l.base.slot;
    SlotFacts(v, m, cfg, l);
    RefPlaces(v, m, cfg, l, f, b);
    var x := Other(m[slot], v[slot]);
    var v1, m1;
    v1, m1, v2, m2 := Torn(v, m, slot, x, b, data);
    trail := [Moment(v, m), Moment(v1, m1)];
    assert WroteAt(trail[0], trail[1], cfg.n, UsedBlocks(v, cfg.n, Top(l).root, Top(l).blk, cfg.sum), b, data, true);
    UnreadableRef(v, m, cfg, l, f, b, v2);
  }

  lemma RefPlaces(v: seq<Block>, m: seq<set<Block>>, cfg: Config, l: Ledger, f: Ref, b: nat)
    requires Safe(v, m, cfg, l) && l.baseLost == {} && f in Refs(l.base.root) && f.blk < |v| && v[f.blk].RootBlock?
    requires b in RootBlocks(v[f.blk].root, f.blk)
    ensures FIRST_DATA <= b < cfg.n <= |v| && FIRST_DATA <= f.blk
  {
    BaseRef(v, m, cfg, l, f);
    RootBlocksInRange(v[f.blk].root, f.blk, cfg.n);
  }

  lemma UnreadableRef(v: seq<Block>, m: seq<set<Block>>, cfg: Config, l: Ledger, f: Ref, b: nat, v2: seq<Block>)
    requires Safe(v, m, cfg, l) && l.baseLost == {} && f in Refs(l.base.root) && f.blk < |v| && v[f.blk].RootBlock?
    requires b in RootBlocks(v[f.blk].root, f.blk) && b < |v| == |v2|
    requires v2[b] == Junk && (f.blk != b ==> v2[f.blk] == v[f.blk])
    ensures !ReadsBack(v2, cfg, f, l.truth)
  {
    BaseRef(v, m, cfg, l, f);
    Unreadable(v, v2, m, cfg, f, l.truth, b);
  }

  lemma Torn(v: seq<Block>, m: seq<set<Block>>, slot: nat, x: Block, b: nat, data: Block)
    returns (v1: seq<Block>, m1: seq<set<Block>>, v2: seq<Block>, m2: seq<set<Block>>)
    requires Live(v, m) && slot < |v| && x in m[slot] && b < |v| && b != slot
    ensures Wrote(v, m, v1, m1, b, [data], Junk, true) && Live(v1, m1) && Crashed(m1, v2, m2)
    ensures v2 == v[slot := x][b := Junk]
  {
    v1, m1 := v[b := data], m[b := m[b] + {data, Junk}];
    v2 := v[slot := x][b := Junk];
    m2 := seq(|v|, i requires 0 <= i < |v| => {v2[i]});
  }

  lemma Other(s: set<Block>, x: Block) returns (y: Block)
    requires x in s && s != {x}
    ensures y in s && y != x
  {
    assert !(s <= {x});
    y :| y in s && y !in {x};
  }

  lemma Unreadable(v: seq<Block>, v2: seq<Block>, m: seq<set<Block>>, cfg: Config, f: Ref, truth: map<nat, Contents>,
                   b: nat)
    requires RefFirm(v, m, cfg, f, truth) && |v2| == |v| && b in RootBlocks(v[f.blk].root, f.blk) && b < |v|
    requires v2[b] == Junk && (f.blk != b ==> v2[f.blk] == v[f.blk])
    ensures !ReadsBack(v2, cfg, f, truth)
  {
    var r := v[f.blk].root;
    if b != f.blk {
      var o :| o in r.objs && b in Extent(o);
      assert o.blk <= b < o.blk + o.nblk;
      assert !Readable(v2, o);
    }
  }

  /** A store runs on a generation whose superblock may still be only in the cache, with all history
      sound.  Whatever it writes before its next commit reaches a superblock, and whatever a crash then keeps,
      the history of the generation that the next mount accepts is intact, exactly if that superblock is on
      the medium after all or the newer generation keeps in use every block that the older one's history
      occupies. */
  lemma HistorySurvivesIff(v: seq<Block>, m: seq<set<Block>>, cfg: Config, l: Ledger)
    requires Safe(v, m, cfg, l) && l.next.Some? && l.baseLost == {} && l.nextLost == {}
    requires |m| == |v| && l.base.slot < 2 <= |v|
    ensures HistorySurvives(v, m, cfg, l) <==> Anchored(v, m, l) || Covered(v, cfg, l)
  {
    if Anchored(v, m, l) || Covered(v, cfg, l) {
      forall trail, v2, m2 | WritesThenCrash(v, m, cfg, l, trail, v2, m2)
        ensures |v2| == |v| && HistoryReads(v2, cfg, Top(Recovered(l, cfg, v2)).root, l.truth)
      {
        SurvivesIf(v, m, cfg, l, trail, v2, m2);
      }
    } else {
      var f :| f in Refs(l.base.root) && f.blk < |v| && v[f.blk].RootBlock?
               && !(RootBlocks(v[f.blk].root, f.blk) <= UsedBlocks(v, cfg.n, Top(l).root, Top(l).blk, cfg.sum));
      var b :| b in RootBlocks(v[f.blk].root, f.blk) && b !in UsedBlocks(v, cfg.n, Top(l).root, Top(l).blk, cfg.sum);
      var trail, v2, m2 := LosesOtherwise(v, m, cfg, l, Junk, f, b);
      assert WritesThenCrash(v, m, cfg, l, trail, v2, m2);
    }
  }

  /** A newer generation that retains all that the older one did is never the cause of a loss. */
  lemma RetainingAllCovers(v: seq<Block>, m: seq<set<Block>>, cfg: Config, l: Ledger)
    requires Safe(v, m, cfg, l) && l.next.Some? && l.baseLost == {}
    requires forall f <- Refs(l.base.root) :: f in Refs(l.next.value.root)
    ensures Covered(v, cfg, l)
  {
    var used := UsedBlocks(v, cfg.n, Top(l).root, Top(l).blk, cfg.sum);
    forall f <- Refs(l.base.root)
      ensures f.blk < |v| && v[f.blk].RootBlock? ==> RootBlocks(v[f.blk].root, f.blk) <= used
    {
      BaseRef(v, m, cfg, l, f);
      RefGuarded(v, m, cfg, Refs(l.next.value.root), f, l.truth[f.gen]);
    }
  }

  // ---- a store that loses history ----

  /** Three generations of an empty store that retains two: a format and two commits of nothing. */
  function Format1(cfg: Config): Gen {
    Gen(0, 2, FormatRoot(cfg.id, RETAIN_MIN, 0))
  }

  function Commit2(cfg: Config): Gen {
    var g := Format1(cfg);
    Gen(1, 3, NewRoot(cfg, g.root, g.blk, g.root, 0, "second", KeepCount(false, RETAIN_MIN)))
  }

  function Commit3(cfg: Config): Gen {
    var g := Commit2(cfg);
    Gen(0, 4, NewRoot(cfg, g.root, g.blk, g.root, 0, "third", KeepCount(false, RETAIN_MIN)))
  }

  lemma CommitSane(cfg: Config, cur: Root, curBlk: nat, text: string)
    requires RootSane(cur, cfg.n) && cur.retain == RETAIN_MIN && FIRST_DATA <= curBlk < cfg.n && LabelOk(text)
    ensures RootSane(NewRoot(cfg, cur, curBlk, cur, 0, text, KeepCount(false, RETAIN_MIN)), cfg.n)
  {
    TxBegin(cfg, cur, curBlk, {});
    NewRootSane(cfg, cur, curBlk, cur, 0, text, KeepCount(false, RETAIN_MIN), {}, {});
  }

  lemma LabelsOk()
    ensures LabelOk("second") && LabelOk("third")
  {
    assert forall c <- "second" :: ' ' < c <= '~';
    assert forall c <- "third" :: ' ' < c <= '~';
  }

  lemma ScenesSane(cfg: Config)
    requires cfg.n >= MIN_BLOCKS
    ensures RootSane(Format1(cfg).root, cfg.n) && RootSane(Commit2(cfg).root, cfg.n)
    ensures RootSane(Commit3(cfg).root, cfg.n)
  {
    LabelsOk();
    assert RootSane(Format1(cfg).root, cfg.n);
    CommitSane(cfg, Format1(cfg).root, 2, "second");
    CommitSane(cfg, Commit2(cfg).root, 3, "third");
  }

  ghost function SceneLedger(cfg: Config): Ledger {
    Ledger(Commit2(cfg), Some(Commit3(cfg)), map[1 := map[], 2 := map[], 3 := map[]], {}, {})
  }

  ghost function SceneView(cfg: Config): (v: seq<Block>)
    requires cfg.n >= MIN_BLOCKS
    ensures |v| == cfg.n
  {
    [SuperOf(cfg, Commit3(cfg)), SuperOf(cfg, Commit2(cfg)), RootBlock(Format1(cfg).root), RootBlock(Commit2(cfg).root),
     RootBlock(Commit3(cfg).root)] + seq(cfg.n - 5, _ => Junk)
  }

  /** The superblock of the third generation is written but not flushed. */
  ghost function SceneMaybe(cfg: Config): (m: seq<set<Block>>)
    requires cfg.n >= MIN_BLOCKS
    ensures |m| == cfg.n
  {
    var v := SceneView(cfg);
    seq(cfg.n, i requires 0 <= i < cfg.n => if i == 0 then {SuperOf(cfg, Format1(cfg)), v[0], Junk} else {v[i]})
  }

  lemma EmptyFirm(v: seq<Block>, m: seq<set<Block>>, cfg: Config, r: Root, blk: nat)
    requires FIRST_DATA <= blk < cfg.n <= |v| == |m| && RootSane(r, cfg.n) && r.objs == [] && r.storeId == cfg.id
    requires v[blk] == RootBlock(r) && m[blk] == {v[blk]}
    ensures Firm(v, m, cfg, r, blk, map[]) && RootBlocks(r, blk) == {blk}
  {
    assert RootBlocks(r, blk) == {blk};
  }

  lemma EmptyWhole(v: seq<Block>, m: seq<set<Block>>, cfg: Config, r: Root, blk: nat, f: Ref, truth: map<nat, Contents>)
    requires Refs(r) == [f] && r.objs == [] && RefFirm(v, m, cfg, f, truth) && v[f.blk].root.objs == []
    ensures Whole(v, m, cfg, r, blk, truth, {})
  {
  }

  lemma SceneGens(cfg: Config)
    requires MIN_BLOCKS <= cfg.n <= MAX_BLOCKS
    ensures var v, m, l := SceneView(cfg), SceneMaybe(cfg), SceneLedger(cfg);
      && GenOk(v, m, cfg, l.base, l.truth, {}) && GenOk(v, m, cfg, l.next.value, l.truth, {})
      && RefFirm(v, m, cfg, RefOf(cfg, Format1(cfg).root, 2), l.truth)
  {
    var v, m, l := SceneView(cfg), SceneMaybe(cfg), SceneLedger(cfg);
    var f, f2 := RefOf(cfg, Format1(cfg).root, 2), RefOf(cfg, Commit2(cfg).root, 3);
    ScenesSane(cfg);
    EmptyFirm(v, m, cfg, Format1(cfg).root, 2);
    EmptyFirm(v, m, cfg, Commit2(cfg).root, 3);
    EmptyFirm(v, m, cfg, Commit3(cfg).root, 4);
    assert Refs(Commit2(cfg).root) == [f] && Refs(Commit3(cfg).root) == [f2];
    EmptyWhole(v, m, cfg, Commit2(cfg).root, 3, f, l.truth);
    EmptyWhole(v, m, cfg, Commit3(cfg).root, 4, f2, l.truth);
  }

  lemma SceneSafe(cfg: Config)
    requires MIN_BLOCKS <= cfg.n <= MAX_BLOCKS
    ensures Safe(SceneView(cfg), SceneMaybe(cfg), cfg, SceneLedger(cfg))
  {
    var v, m, l := SceneView(cfg), SceneMaybe(cfg), SceneLedger(cfg);
    SceneGens(cfg);
    assert m[0] == {SuperOf(cfg, Format1(cfg)), SuperOf(cfg, Commit3(cfg)), Junk};
    assert OlderSlot(SuperOf(cfg, Format1(cfg)), cfg, l.base.root) && OlderSlot(Junk, cfg, l.base.root);
    assert Slots(v, m, cfg, l);
    InvIntro(v, m, cfg, l);
  }

  lemma RootUnused(v: seq<Block>, cfg: Config, r3: Root)
    requires |v| >= cfg.n >= MIN_BLOCKS && v[3].RootBlock? && v[3].root.objs == [] && r3.objs == []
    requires r3.hist != [] && Refs(r3) == [r3.hist[0]] && r3.hist[0].blk == 3
    ensures 2 !in UsedBlocks(v, cfg.n, r3, 4, cfg.sum)
  {
    var f := r3.hist[0];
    assert RefsUsed(v, cfg.n, [f], cfg.sum) == RefsUsed(v, cfg.n, [], cfg.sum) + RefUsed(v, cfg.n, f, cfg.sum);
    assert RootBlocks(r3, 4) == {4} && RootBlocks(v[3].root, 3) == {3};
  }

  /** The commit of generation 3 ended in OutcomeUnknown with its superblock only in the cache, and the
      store was mounted again without a power cycle.  Generation 3 no longer retains generation 1, which
      generation 2 does: history does not survive every write and every crash from here. */
  lemma UnflushedRemountLosesHistory(cfg: Config) returns (v: seq<Block>, m: seq<set<Block>>, l: Ledger)
    requires MIN_BLOCKS <= cfg.n <= MAX_BLOCKS
    ensures Safe(v, m, cfg, l) && l.next.Some? && l.baseLost == {} && l.nextLost == {}
    ensures l.base == Commit2(cfg) && l.next.value == Commit3(cfg)
    ensures |m| == |v| && l.base.slot < 2 <= |v| && !HistorySurvives(v, m, cfg, l)
  {
    v, m, l := SceneView(cfg), SceneMaybe(cfg), SceneLedger(cfg);
    SceneSafe(cfg);
    var f := RefOf(cfg, Format1(cfg).root, 2);
    assert Refs(Commit2(cfg).root) == [f] && f in Refs(l.base.root);
    assert Refs(Commit3(cfg).root) == [RefOf(cfg, Commit2(cfg).root, 3)];
    RootUnused(v, cfg, Commit3(cfg).root);
    assert 2 in RootBlocks(v[2].root, 2);
    assert SuperOf(cfg, Format1(cfg)) in m[0] && SuperOf(cfg, Format1(cfg)) != v[0];
    HistorySurvivesIff(v, m, cfg, l);
  }
}
