/** A sound store that its consistency check reports as corrupt: it retains thirteen generations, and each of
    them has written all its forty-nine objects anew. */
module StoreCrowd {
  import opened Common
  import opened StoreFormat
  import opened StoreRecovery
  import opened StoreInvariant
  import opened StoreTransaction
  import opened StoreCheck

  // ---- where things are: each put takes the lowest block that is free, then the root ----

  /** Generation 1 holds block 2 until generation 10 no longer retains it; generation 11 finds it free. */
  function Base(g: nat): nat
    requires g >= 2
  {
    if g <= 10 then 3 + 50 * (g - 2) else 2 + 50 * (g - 2)
  }

  function RootBlk(g: nat): nat {
    if g < 2 then 2 else Base(g) + 49
  }

  function DataBlk(g: nat, i: nat): nat
    requires g >= 2
  {
    if g == 11 && i == 0 then 2 else Base(g) + i
  }

  // ---- the generations ----

  const BYTES: Bytes := [0]

  function Name(i: nat): string
    requires i < OBJ_MAX
  {
    [if i < 26 then 'a' + i as char else 'A' + (i - 26) as char]
  }

  function Index(g: nat, i: nat): int {
    if g == 2 then -1 else i
  }

  /** The transaction of generation g after its first n puts. */
  function Puts(cfg: Config, work: Root, g: nat, n: nat): (w: Root)
    requires g >= 2 && n <= OBJ_MAX && |work.objs| == if g == 2 then 0 else OBJ_MAX
    ensures |w.objs| == if g == 2 then n else OBJ_MAX
    decreases n
  {
    if n == 0 then work
    else
      var w := Puts(cfg, work, g, n - 1);
      var idx := Index(g, n - 1);
      PutRoot(w, idx, PutObj(w, idx, Name(n - 1), 0, DataBlk(g, n - 1), BYTES, g, cfg.sum))
  }

  const LAST: nat := 14

  function RefTo(cfg: Config, rs: seq<Root>, g: nat): Ref
    requires g < |rs|
  {
    RefOf(cfg, rs[g], RootBlk(g))
  }

  function PinName(i: nat): string
    requires i < PIN_MAX
  {
    ['a' + i as char]
  }

  function Pins(cfg: Config, rs: seq<Root>): seq<Pin>
    requires |rs| >= 6
  {
    seq(PIN_MAX, i requires 0 <= i < PIN_MAX => Pin(PinName(i), RefTo(cfg, rs, 2 + i)))
  }

  /** The transaction of generation g: it puts every object; that of generation 6 pins the four before it. */
  function Work(cfg: Config, rs: seq<Root>, g: nat): Root
    requires 2 <= g <= |rs| && |rs[g - 1].objs| == if g == 2 then 0 else OBJ_MAX
  {
    Puts(cfg, rs[g - 1], g, OBJ_MAX).(pins := if g < 6 then [] else Pins(cfg, rs))
  }

  ghost predicate Link(cfg: Config, rs: seq<Root>, g: nat)
    requires 2 <= g < |rs|
  {
    && |rs[g - 1].objs| == (if g == 2 then 0 else OBJ_MAX)
    && rs[g] == NewRoot(cfg, rs[g - 1], RootBlk(g - 1), Work(cfg, rs, g), 0, "put", KeepCount(false, RETAIN_MAX))
  }

  /** A format that retains as much as there can be, and then one commit after the other. */
  ghost predicate Chain(cfg: Config, rs: seq<Root>) {
    && 2 <= |rs| <= LAST + 1 && rs[1] == FormatRoot(cfg.id, RETAIN_MAX, 0)
    && forall g | 2 <= g < |rs| :: Link(cfg, rs, g)
  }

  // ---- what the generations look like ----

  function ObjOf(cfg: Config, g: nat, i: nat): Obj
    requires g >= 2 && i < OBJ_MAX
  {
    Obj(i + 1, g, g - 1, DataBlk(g, i), 1, cfg.sum.data(BYTES), 0, 1, Name(i))
  }

  function Objs(cfg: Config, g: nat): seq<Obj>
    requires g >= 2
  {
    seq(OBJ_MAX, i requires 0 <= i < OBJ_MAX => ObjOf(cfg, g, i))
  }

  lemma NewVersion(g: nat)
    requires 2 <= g <= 14
    ensures (g - 1) % TWO32 == g - 1 && NblkFor(1) == 1
  {
  }

  lemma PutOne(cfg: Config, w: Root, g: nat, i: nat)
    requires 2 <= g <= 14 && i < OBJ_MAX && Index(g, i) < |w.objs|
    requires if g == 2 then w.nextOid == i + 1 else w.objs[i] == ObjOf(cfg, g - 1, i)
    ensures PutObj(w, Index(g, i), Name(i), 0, DataBlk(g, i), BYTES, g, cfg.sum) == ObjOf(cfg, g, i)
  {
    NewVersion(g);
  }

  /** After n puts the first n objects are those of generation g. */
  lemma {:induction false} PutsMake(cfg: Config, work: Root, g: nat, n: nat)
    requires 2 <= g <= 14 && n <= OBJ_MAX && |work.objs| == if g == 2 then 0 else OBJ_MAX
    requires g > 2 ==> work.objs == Objs(cfg, g - 1) && work.nextOid == OBJ_MAX + 1
    requires g == 2 ==> work.nextOid == 1
    ensures var w := Puts(cfg, work, g, n);
      && w == work.(objs := w.objs, nextOid := w.nextOid) && w.nextOid == (if g == 2 then n + 1 else OBJ_MAX + 1)
      && (forall i | 0 <= i < n :: w.objs[i] == ObjOf(cfg, g, i))
      && (g > 2 ==> forall i | n <= i < OBJ_MAX :: w.objs[i] == ObjOf(cfg, g - 1, i))
    decreases n
  {
    if n > 0 {
      PutsMake(cfg, work, g, n - 1);
      PutOne(cfg, Puts(cfg, work, g, n - 1), g, n - 1);
    }
  }

  /** What generation g has and retains. */
  ghost predicate Looks(cfg: Config, rs: seq<Root>, g: nat)
    requires 1 <= g < |rs|
  {
    var r := rs[g];
    && r.gen == g && r.storeId == cfg.id && r.retain == RETAIN_MAX
    && (if g == 1 then r.objs == [] && r.nextOid == 1 else r.objs == Objs(cfg, g) && r.nextOid == OBJ_MAX + 1)
    && |r.hist| == Min(g - 1, HIST_MAX) && (forall i | 0 <= i < |r.hist| :: r.hist[i] == RefTo(cfg, rs, g - 1 - i))
    && r.pins == if g < 6 then [] else Pins(cfg, rs)
  }

  lemma WorkMade(cfg: Config, rs: seq<Root>, g: nat)
    requires 2 <= g <= LAST && g <= |rs| && Looks(cfg, rs, g - 1)
    ensures var w := Work(cfg, rs, g);
      && w == rs[g - 1].(objs := Objs(cfg, g), nextOid := OBJ_MAX + 1, pins := if g < 6 then [] else Pins(cfg, rs))
  {
    PutsMake(cfg, rs[g - 1], g, OBJ_MAX);
    assert Puts(cfg, rs[g - 1], g, OBJ_MAX).objs == Objs(cfg, g);
  }

  lemma HistNext(cfg: Config, rs: seq<Root>, g: nat)
    requires 2 <= g <= |rs| && Looks(cfg, rs, g - 1)
    ensures var h := NewHist(cfg, rs[g - 1], RootBlk(g - 1), HIST_MAX);
      |h| == Min(g - 1, HIST_MAX) && forall i | 0 <= i < |h| :: h[i] == RefTo(cfg, rs, g - 1 - i)
  {
  }

  lemma {:induction false} RootMade(cfg: Config, rs: seq<Root>, g: nat)
    requires Chain(cfg, rs) && 1 <= g < |rs|
    ensures Looks(cfg, rs, g)
  {
    if g > 1 {
      RootMade(cfg, rs, g - 1);
      WorkMade(cfg, rs, g);
      HistNext(cfg, rs, g);
      assert Link(cfg, rs, g);
    }
  }

  lemma PinsAt(cfg: Config, rs: seq<Root>, i: nat)
    requires |rs| >= 6 && i < PIN_MAX
    ensures Pins(cfg, rs)[i] == Pin(PinName(i), RefOf(cfg, rs[2 + i], RootBlk(2 + i)))
  {
  }

  lemma SameWork(cfg: Config, before: seq<Root>, rs: seq<Root>, g: nat)
    requires 2 <= g <= |before| && before <= rs && |before[g - 1].objs| == if g == 2 then 0 else OBJ_MAX
    ensures Work(cfg, rs, g) == Work(cfg, before, g)
  {
    assert rs[g - 1] == before[g - 1];
    if g >= 6 {
      forall i | 0 <= i < PIN_MAX ensures Pins(cfg, rs)[i] == Pins(cfg, before)[i] {
        PinsAt(cfg, rs, i);
        PinsAt(cfg, before, i);
        assert rs[2 + i] == before[2 + i];
      }
    }
  }

  lemma LinkStays(cfg: Config, before: seq<Root>, rs: seq<Root>, g: nat)
    requires 2 <= g < |before| && before <= rs && Link(cfg, before, g)
    ensures Link(cfg, rs, g)
  {
    SameWork(cfg, before, rs, g);
    assert rs[g] == before[g] && rs[g - 1] == before[g - 1];
  }

  lemma LinkNew(cfg: Config, before: seq<Root>, rs: seq<Root>)
    requires 2 <= |before| <= LAST && Looks(cfg, before, |before| - 1)
    requires var n := |before|;
             rs == before + [NewRoot(cfg, before[n - 1], RootBlk(n - 1), Work(cfg, before, n), 0, "put",
                                     KeepCount(false, RETAIN_MAX))]
    ensures Link(cfg, rs, |before|)
  {
    SameWork(cfg, before, rs, |before|);
  }

  /** Such a store there is. */
  lemma {:induction false} Build(cfg: Config, n: nat) returns (rs: seq<Root>)
    requires 1 <= n <= LAST
    ensures Chain(cfg, rs) && |rs| == n + 1
  {
    if n == 1 {
      var r := FormatRoot(cfg.id, RETAIN_MAX, 0);
      rs := [r, r];
    } else {
      var before := Build(cfg, n - 1);
      RootMade(cfg, before, n - 1);
      var r := NewRoot(cfg, before[n - 1], RootBlk(n - 1), Work(cfg, before, n), 0, "put",
                       KeepCount(false, RETAIN_MAX));
      rs := before + [r];
      LinkNew(cfg, before, rs);
      Longer(cfg, before, rs);
    }
  }

  lemma Longer(cfg: Config, before: seq<Root>, rs: seq<Root>)
    requires Chain(cfg, before) && before <= rs && |rs| == |before| + 1 <= LAST + 1 && Link(cfg, rs, |before|)
    ensures Chain(cfg, rs)
  {
    assert rs[1] == before[1];
    forall g | 2 <= g < |rs| ensures Link(cfg, rs, g) {
      if g < |before| {
        assert Link(cfg, before, g);
        LinkStays(cfg, before, rs, g);
      }
    }
  }

  lemma NamesApart(i: nat, j: nat)
    requires i < OBJ_MAX && j < OBJ_MAX && i != j
    ensures Name(i) != Name(j) && NameOk(Name(i))
  {
    assert Name(i)[0] != Name(j)[0];
  }

  lemma ObjsMade(cfg: Config, g: nat)
    requires 2 <= g <= 14 && cfg.n >= 652
    ensures ObjsShaped(Objs(cfg, g), g, OBJ_MAX + 1, cfg.n) && VersionsOk(Objs(cfg, g))
  {
    NewVersion(g);
    forall i | 0 <= i < OBJ_MAX ensures ObjShaped(ObjOf(cfg, g, i), g, OBJ_MAX + 1, cfg.n) {
      NamesApart(i, if i == 0 then 1 else 0);
    }
    forall i, j | 0 <= j < i < OBJ_MAX ensures ObjsApart(ObjOf(cfg, g, j), ObjOf(cfg, g, i)) {
      NamesApart(i, j);
    }
  }

  lemma PinNamesOk(i: nat, j: nat)
    requires i < PIN_MAX && j < PIN_MAX && i != j
    ensures PinNameOk(PinName(i)) && PinName(i) != PinName(j)
  {
    assert PinName(i)[0] != PinName(j)[0];
  }

  /** Generation k, among what generation g keeps. */
  lemma Retains(cfg: Config, rs: seq<Root>, g: nat, k: nat)
    requires 1 <= g < |rs| && Looks(cfg, rs, g) && 1 <= k <= g && (k + HIST_MAX >= g || (g >= 6 && 2 <= k <= 5))
    ensures RefTo(cfg, rs, k) in Retained(cfg, rs[g], RootBlk(g))
  {
    var r := rs[g];
    var all := Retained(cfg, r, RootBlk(g));
    if k + HIST_MAX >= g {
      if k < g {
        assert r.hist[g - 1 - k] == RefTo(cfg, rs, k);
        assert all[1 + (g - 1 - k)] == RefTo(cfg, rs, k);
      }
    } else {
      assert r.pins[k - 2].ref == RefTo(cfg, rs, k);
      assert all[1 + |r.hist| + (k - 2)] == RefTo(cfg, rs, k);
    }
  }

  lemma PinsMade(cfg: Config, rs: seq<Root>, g: nat)
    requires 6 <= g <= LAST && g <= |rs| && Looks(cfg, rs, g - 1)
    ensures TxPins(Pins(cfg, rs), Retained(cfg, rs[g - 1], RootBlk(g - 1)))
  {
    var pins := Pins(cfg, rs);
    forall i | 0 <= i < PIN_MAX
      ensures PinNameOk(pins[i].name) && pins[i].ref in Retained(cfg, rs[g - 1], RootBlk(g - 1))
    {
      PinNamesOk(i, if i == 0 then 1 else 0);
      Retains(cfg, rs, g - 1, 2 + i);
    }
    forall i, j | 0 <= j < i < PIN_MAX ensures pins[j].name != pins[i].name {
      PinNamesOk(i, j);
    }
  }

  lemma {:induction false} RootsSane(cfg: Config, rs: seq<Root>, g: nat)
    requires Chain(cfg, rs) && 1 <= g < |rs| && cfg.n >= 652
    ensures RootSane(rs[g], cfg.n)
  {
    if g > 1 {
      RootsSane(cfg, rs, g - 1);
      RootMade(cfg, rs, g - 1);
      WorkMade(cfg, rs, g);
      ObjsMade(cfg, g);
      if g >= 6 {
        PinsMade(cfg, rs, g);
      }
      NextSane(cfg, rs, g);
    }
  }

  lemma TxMade(cfg: Config, cur: Root, curBlk: nat, pins: seq<Pin>, g: nat)
    requires 2 <= g <= LAST && cfg.n >= 652 && cur.nextOid <= OBJ_MAX + 1 && cur.gen == g - 1
    requires TxPins(pins, Retained(cfg, cur, curBlk))
    requires ObjsShaped(Objs(cfg, g), g, OBJ_MAX + 1, cfg.n)
    ensures TxOk(cfg, cur, curBlk, cur.(objs := Objs(cfg, g), nextOid := OBJ_MAX + 1, pins := pins), {},
                 Span(FIRST_DATA, cfg.n - 2))
  {
    var here := Span(FIRST_DATA, cfg.n - 2);
    forall o <- Objs(cfg, g) ensures Extent(o) <= here - {} {
      var i :| 0 <= i < OBJ_MAX && o == ObjOf(cfg, g, i);
    }
  }

  lemma LabelPut()
    ensures LabelOk("put")
  {
    assert forall c <- "put" :: ' ' < c <= '~';
  }

  lemma NextSane(cfg: Config, rs: seq<Root>, g: nat)
    requires 2 <= g < |rs| && Link(cfg, rs, g) && cfg.n >= 652 && g <= LAST
    requires RootSane(rs[g - 1], cfg.n) && rs[g - 1].nextOid <= OBJ_MAX + 1 && rs[g - 1].gen == g - 1
    requires Work(cfg, rs, g) ==
                 rs[g - 1].(objs := Objs(cfg, g), nextOid := OBJ_MAX + 1, pins := if g < 6 then [] else Pins(cfg, rs))
    requires g >= 6 ==> TxPins(Pins(cfg, rs), Retained(cfg, rs[g - 1], RootBlk(g - 1)))
    requires ObjsShaped(Objs(cfg, g), g, OBJ_MAX + 1, cfg.n) && VersionsOk(Objs(cfg, g))
    ensures RootSane(rs[g], cfg.n)
  {
    var cur, work, pins := rs[g - 1], Work(cfg, rs, g), if g < 6 then [] else Pins(cfg, rs);
    TxMade(cfg, cur, RootBlk(g - 1), pins, g);
    LabelPut();
    NewRootSane(cfg, cur, RootBlk(g - 1), work, 0, "put", KeepCount(false, RETAIN_MAX), {},
                Span(FIRST_DATA, cfg.n - 2));
  }

  // ---- the disk ----

  function ZeroPage(): Page {
    seq(BLOCK, _ => 0)
  }

  function GenAt(rs: seq<Root>, g: nat): Gen
    requires g < |rs|
  {
    Gen((g + 1) % 2, RootBlk(g), rs[g])
  }

  /** The generation whose root is in block b, or 0. */
  function RootIn(b: nat): nat {
    if b <= 2 then 0
    else if b <= 452 then (if (b - 2) % 50 == 0 then (b - 2) / 50 + 1 else 0)
    else if b <= 651 then (if (b - 1) % 50 == 0 then (b - 1) / 50 + 1 else 0)
    else 0
  }

  function BlockAt(cfg: Config, rs: seq<Root>, b: nat): Block
    requires |rs| == LAST + 1
  {
    if b == 0 then SuperOf(cfg, GenAt(rs, 13))
    else if b == 1 then SuperOf(cfg, GenAt(rs, 14))
    else if 2 <= RootIn(b) <= LAST then RootBlock(rs[RootIn(b)]) else DataBlock(ZeroPage())
  }

  function Disk(cfg: Config, rs: seq<Root>): (v: seq<Block>)
    requires |rs| == LAST + 1
    ensures |v| == cfg.n
  {
    seq(cfg.n, b requires 0 <= b < cfg.n => BlockAt(cfg, rs, b))
  }

  /** Everything is on the medium. */
  function Flushed(v: seq<Block>): (m: seq<set<Block>>)
    ensures |m| == |v| && forall b | 0 <= b < |v| :: m[b] == {v[b]}
  {
    seq(|v|, b requires 0 <= b < |v| => {v[b]})
  }

  lemma Places(g: nat, i: nat)
    requires 2 <= g <= LAST && i < OBJ_MAX
    ensures 3 <= RootBlk(g) <= 651 && RootIn(RootBlk(g)) == g
    ensures 2 <= DataBlk(g, i) <= 651 && RootIn(DataBlk(g, i)) == 0
  {
  }

  function Everything(cfg: Config): Contents {
    map n | n in Names(Objs(cfg, 2)) :: BYTES
  }

  function Truth(cfg: Config): map<nat, Contents> {
    map g | g in Span(1, LAST) :: Everything(cfg)
  }

  lemma NamesMade(cfg: Config, g: nat)
    requires g >= 2
    ensures Names(Objs(cfg, g)) <= Names(Objs(cfg, 2)) <= Names(Objs(cfg, g))
  {
    SomeNames(cfg, g, 2);
    SomeNames(cfg, 2, g);
  }

  lemma SomeNames(cfg: Config, g: nat, h: nat)
    requires g >= 2 && h >= 2
    ensures Names(Objs(cfg, g)) <= Names(Objs(cfg, h))
  {
    var objs, others := Objs(cfg, g), Objs(cfg, h);
    forall n <- Names(objs) ensures n in Names(others) {
      var o :| o in objs && o.name == n;
      var i :| 0 <= i < OBJ_MAX && o == objs[i];
      assert others[i] in others && others[i].name == n;
    }
  }

  lemma ReadsZero(v: seq<Block>, o: Obj, sum: Checksums)
    requires o.blk < |v| && v[o.blk] == DataBlock(ZeroPage()) && o.len == 1 && o.nblk == 1 && o.crc == sum.data(BYTES)
    ensures ExtentOk(v, o, sum) && ObjBytes(v, o) == BYTES
  {
    assert Joined(v, o.blk, 1) == v[o.blk].bytes + Joined(v, o.blk + 1, 0);
    assert ObjBytes(v, o) == BYTES;
  }

  lemma HoldsAll(cfg: Config, rs: seq<Root>, g: nat)
    requires |rs| == LAST + 1 && 2 <= g <= LAST && cfg.n >= 652
    ensures Holds(Disk(cfg, rs), Objs(cfg, g), Everything(cfg), cfg.sum)
  {
    var v, objs := Disk(cfg, rs), Objs(cfg, g);
    NamesMade(cfg, g);
    forall o <- objs ensures ExtentOk(v, o, cfg.sum) && o.name in Everything(cfg) && ObjBytes(v, o) == BYTES {
      var i :| 0 <= i < OBJ_MAX && o == objs[i];
      Places(g, i);
      ReadsZero(v, o, cfg.sum);
    }
  }

  lemma BlocksFit(cfg: Config, g: nat, r: Root)
    requires 2 <= g <= LAST && cfg.n >= 652 && r.objs == Objs(cfg, g)
    ensures forall b <- RootBlocks(r, RootBlk(g)) :: 2 <= b < cfg.n
  {
    Places(g, 0);
    forall o, b | o in r.objs && b in Extent(o) ensures 2 <= b < cfg.n {
      var i :| 0 <= i < OBJ_MAX && o == ObjOf(cfg, g, i);
      Places(g, i);
    }
  }

  lemma AllGensFirm(cfg: Config, rs: seq<Root>, g: nat)
    requires Chain(cfg, rs) && |rs| == LAST + 1 && 2 <= g <= LAST && cfg.n >= 652
    ensures var v := Disk(cfg, rs);
            RefFirm(v, Flushed(v), cfg, RefTo(cfg, rs, g), Truth(cfg)) && v[RootBlk(g)] == RootBlock(rs[g])
  {
    var v := Disk(cfg, rs);
    RootMade(cfg, rs, g);
    RootsSane(cfg, rs, g);
    Places(g, 0);
    HoldsAll(cfg, rs, g);
    BlocksFit(cfg, g, rs[g]);
    assert Settled(v, Flushed(v), RootBlocks(rs[g], RootBlk(g)));
  }

  /** No two generations have a block in common. */
  lemma GensApart(cfg: Config, r: Root, g: nat, r': Root, h: nat)
    requires 2 <= g <= LAST && 2 <= h <= LAST && r.objs == Objs(cfg, g) && r'.objs == Objs(cfg, h)
    ensures RootsApart(r, RootBlk(g), r', RootBlk(h))
  {
    forall o <- r.objs ensures !Covers(o, RootBlk(h)) {
      var i :| 0 <= i < OBJ_MAX && o == ObjOf(cfg, g, i);
      Places(g, i);
      Places(h, 0);
    }
    forall o <- r'.objs ensures !Covers(o, RootBlk(g)) {
      var i :| 0 <= i < OBJ_MAX && o == ObjOf(cfg, h, i);
      Places(h, i);
      Places(g, 0);
    }
    forall o <- r.objs, p <- r'.objs ensures SharedOrApart(o, p) {
      var i :| 0 <= i < OBJ_MAX && o == ObjOf(cfg, g, i);
      var j :| 0 <= j < OBJ_MAX && p == ObjOf(cfg, h, j);
      if DataBlk(g, i) == DataBlk(h, j) {
        Differ(g, i, h, j);
      }
    }
  }

  lemma Differ(g: nat, i: nat, h: nat, j: nat)
    requires 2 <= g <= LAST && 2 <= h <= LAST && i < OBJ_MAX && j < OBJ_MAX && DataBlk(g, i) == DataBlk(h, j)
    ensures g == h && i == j
  {
  }

  // ---- the store is sound, and full ----

  /** What the last generation retains: the eight before it, and the four that are pinned. */
  lemma RefsAre(cfg: Config, rs: seq<Root>, f: Ref) returns (g: nat)
    requires Chain(cfg, rs) && |rs| == LAST + 1 && f in Refs(rs[LAST])
    ensures 2 <= g < LAST && f == RefTo(cfg, rs, g)
  {
    RootMade(cfg, rs, LAST);
    var r := rs[LAST];
    var i :| 0 <= i < |Refs(r)| && Refs(r)[i] == f;
    if i < |r.hist| {
      g := LAST - 1 - i;
    } else {
      g := 2 + (i - |r.hist|);
      assert r.pins[i - |r.hist|].ref == RefTo(cfg, rs, g);
    }
  }

  lemma LastWhole(cfg: Config, rs: seq<Root>)
    requires Chain(cfg, rs) && |rs| == LAST + 1 && cfg.n >= 652
    ensures var v := Disk(cfg, rs); GenOk(v, Flushed(v), cfg, GenAt(rs, LAST), Truth(cfg), {})
  {
    var v := Disk(cfg, rs);
    var m, r, blk := Flushed(v), rs[LAST], RootBlk(LAST);
    AllGensFirm(cfg, rs, LAST);
    RootMade(cfg, rs, LAST);
    forall f | Has(r, {}, f) ensures RefFirm(v, m, cfg, f, Truth(cfg)) && RootsApart(r, blk, v[f.blk].root, f.blk) {
      var g := RefsAre(cfg, rs, f);
      AllGensFirm(cfg, rs, g);
      RootMade(cfg, rs, g);
      GensApart(cfg, r, LAST, rs[g], g);
    }
    forall f, h | Has(r, {}, f) && Has(r, {}, h) ensures RootsApart(v[f.blk].root, f.blk, v[h.blk].root, h.blk) {
      var g := RefsAre(cfg, rs, f);
      var k := RefsAre(cfg, rs, h);
      AllGensFirm(cfg, rs, g);
      AllGensFirm(cfg, rs, k);
      RootMade(cfg, rs, g);
      RootMade(cfg, rs, k);
      GensApart(cfg, rs[g], g, rs[k], k);
    }
    GensApart(cfg, r, LAST, r, LAST);
  }

  ghost function Record(cfg: Config, rs: seq<Root>): Ledger
    requires |rs| == LAST + 1
  {
    Ledger(GenAt(rs, LAST), None, Truth(cfg), {}, {})
  }

  lemma SlotsMade(cfg: Config, rs: seq<Root>)
    requires Chain(cfg, rs) && |rs| == LAST + 1 && 652 <= cfg.n <= MAX_BLOCKS
    ensures var v := Disk(cfg, rs); Slots(v, Flushed(v), cfg, Record(cfg, rs))
  {
    var v := Disk(cfg, rs);
    RootMade(cfg, rs, LAST);
    RootMade(cfg, rs, LAST - 1);
    assert v[0] == SuperOf(cfg, GenAt(rs, 13)) && v[1] == SuperOf(cfg, GenAt(rs, 14));
    assert rs[LAST].hist[0] == RefTo(cfg, rs, 13);
    assert OlderSlot(v[0], cfg, rs[LAST]);
  }

  lemma CrowdSafe(cfg: Config, rs: seq<Root>)
    requires Chain(cfg, rs) && |rs| == LAST + 1 && 652 <= cfg.n <= MAX_BLOCKS
    ensures var v := Disk(cfg, rs); Safe(v, Flushed(v), cfg, Record(cfg, rs))
  {
    var v := Disk(cfg, rs);
    LastWhole(cfg, rs);
    SlotsMade(cfg, rs);
    InvIntro(v, Flushed(v), cfg, Record(cfg, rs));
  }

  ghost predicate Begins(ps: set<Piece>, b: nat) {
    exists p <- ps :: p.blk == b
  }

  /** If every block of a stretch begins a piece, there are as many pieces. */
  lemma {:induction false} OnePerBlock(ps: set<Piece>, lo: nat, hi: nat)
    requires lo <= hi && forall b | lo <= b < hi :: Begins(ps, b)
    ensures |ps| >= hi - lo
    decreases hi - lo
  {
    if lo < hi {
      assert Begins(ps, lo);
      var p :| p in ps && p.blk == lo;
      forall b | lo + 1 <= b < hi ensures Begins(ps - {p}, b) {
        assert Begins(ps, b);
        var q :| q in ps && q.blk == b;
        assert q in ps - {p};
      }
      OnePerBlock(ps - {p}, lo + 1, hi);
    }
  }

  /** Whose block b is: object i of generation g, or its root for i == 49. */
  lemma Owner(b: nat) returns (g: nat, i: nat)
    requires 3 <= b <= 651
    ensures 2 <= g <= LAST && i <= OBJ_MAX && b == if i == OBJ_MAX then RootBlk(g) else DataBlk(g, i)
  {
    if b <= 452 {
      g, i := (b - 3) / 50 + 2, (b - 3) % 50;
    } else {
      g, i := (b - 2) / 50 + 2, (b - 2) % 50;
    }
  }

  ghost function CrowdPieces(cfg: Config, rs: seq<Root>): set<Piece>
    requires |rs| == LAST + 1
  {
    SetOf(AllPieces(Disk(cfg, rs), cfg.n, Checked(rs[LAST], RootBlk(LAST), cfg.sum), cfg.sum))
  }

  /** Whatever a generation from the second on has is among the pieces. */
  lemma PieceThere(cfg: Config, rs: seq<Root>, g: nat, p: Piece)
    requires Chain(cfg, rs) && |rs| == LAST + 1 && cfg.n >= 652 && 2 <= g <= LAST
    requires var v, f := Disk(cfg, rs), RefTo(cfg, rs, g);
             RefFirm(v, Flushed(v), cfg, f, Truth(cfg)) && v[RootBlk(g)] == RootBlock(rs[g]) && PieceOf(v, f, p)
    ensures p in CrowdPieces(cfg, rs)
  {
    var v, f := Disk(cfg, rs), RefTo(cfg, rs, g);
    RootMade(cfg, rs, LAST);
    Retains(cfg, rs, LAST, g);
    LastWhole(cfg, rs);
    CheckedAll(v, Flushed(v), cfg, GenAt(rs, LAST), Truth(cfg), {}, f);
    FirmPieces(v, Flushed(v), cfg, f, Truth(cfg), p);
    AllPiecesHas(v, cfg.n, Checked(rs[LAST], RootBlk(LAST), cfg.sum), cfg.sum, p);
  }

  lemma PieceAt(cfg: Config, v: seq<Block>, rs: seq<Root>, g: nat, i: nat) returns (p: Piece)
    requires |rs| == LAST + 1 && 2 <= g <= LAST && i <= OBJ_MAX && RootBlk(g) < |v| && v[RootBlk(g)] == RootBlock(rs[g])
    requires rs[g].objs == Objs(cfg, g)
    ensures PieceOf(v, RefTo(cfg, rs, g), p) && p.blk == if i == OBJ_MAX then RootBlk(g) else DataBlk(g, i)
  {
    var f := RefTo(cfg, rs, g);
    if i == OBJ_MAX {
      p := Piece(f.blk, 1, f.crc, 0);
    } else {
      var o := Objs(cfg, g)[i];
      assert o in v[f.blk].root.objs;
      p := Piece(o.blk, o.nblk, o.crc, o.oid);
    }
  }

  lemma EachBegins(cfg: Config, rs: seq<Root>, b: nat)
    requires Chain(cfg, rs) && |rs| == LAST + 1 && cfg.n >= 652 && 3 <= b <= 651
    ensures Begins(CrowdPieces(cfg, rs), b)
  {
    var g, i := Owner(b);
    RootMade(cfg, rs, g);
    AllGensFirm(cfg, rs, g);
    var p := PieceAt(cfg, Disk(cfg, rs), rs, g, i);
    PieceThere(cfg, rs, g, p);
  }

  /** On every device that is large enough there is a sound store, with nothing lost, that does not pass. */
  lemma SoundStoreFails(cfg: Config) returns (v: seq<Block>, m: seq<set<Block>>, l: Ledger, used: set<nat>)
    requires 700 <= cfg.n <= MAX_BLOCKS
    ensures Safe(v, m, cfg, l) && TopLost(l) == {} && InUse(v, cfg, Top(l).root, Top(l).blk, used)
    ensures exists rs :: Chain(cfg, rs) && |rs| == LAST + 1 && Top(l) == GenAt(rs, LAST)
    ensures !Healthy(v, cfg.n, Top(l).slot, Top(l).root, Top(l).blk, used, cfg.sum)
  {
    var rs := Build(cfg, LAST);
    v := Disk(cfg, rs);
    m, l := Flushed(v), Record(cfg, rs);
    CrowdSafe(cfg, rs);
    used := UsedBlocks(v, cfg.n, Top(l).root, Top(l).blk, cfg.sum);
    forall b | 3 <= b < 652 ensures Begins(CrowdPieces(cfg, rs), b) {
      EachBegins(cfg, rs, b);
    }
    OnePerBlock(CrowdPieces(cfg, rs), 3, 652);
    SoundPassesIff(v, m, cfg, l, used);
  }
}
