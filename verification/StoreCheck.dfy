/** The consistency check of a mounted store: what it finds, and on which sound stores it finds nothing. */
module StoreCheck {
  import opened Common
  import opened StoreFormat
  import opened StoreRecovery
  import opened StoreInvariant
  import opened StoreTransaction
  import opened VolatileDisk
  import opened NxStore

  /** The room there is for distinct extents: as many as the generations that can be retained have objects. */
  const EXTENTS_MAX: nat := (1 + HIST_MAX + PIN_MAX) * OBJ_MAX

  /** A root block, or the extent of an object. */
  datatype Piece = Piece(blk: nat, nblk: nat, crc: nat, oid: nat)

  // ---- what is checked ----

  predicate SameRef(f: Ref, g: Ref) {
    f.gen == g.gen && f.blk == g.blk
  }

  /** Each generation once. */
  function Once(fs: seq<Ref>): (r: seq<Ref>)
    ensures |r| <= |fs| && (fs != [] ==> r != [] && r[0] == fs[0]) && forall f <- r :: f in fs
  {
    if fs == [] then []
    else
      var k := |fs| - 1;
      var r := Once(fs[..k]);
      if exists g <- r :: SameRef(g, fs[k]) then r else r + [fs[k]]
  }

  /** The generations that are checked: the current one, and those it retains. */
  function Checked(cur: Root, curBlk: nat, sum: Checksums): (fs: seq<Ref>)
    ensures 0 < |fs| <= 1 + |cur.hist| + |cur.pins| && fs[0] == Ref(cur.gen, curBlk, sum.root(cur))
  {
    Once([Ref(cur.gen, curBlk, sum.root(cur))] + Refs(cur))
  }

  function ObjPieces(objs: seq<Obj>): (ps: seq<Piece>)
    ensures |ps| <= |objs|
  {
    if objs == [] then []
    else
      var k := |objs| - 1;
      ObjPieces(objs[..k]) + OnePiece(objs[k])
  }

  function OnePiece(o: Obj): seq<Piece> {
    if o.nblk != 0 then [Piece(o.blk, o.nblk, o.crc, o.oid)] else []
  }

  /** The pieces of a generation, if its root can be read. */
  function RootPieces(v: seq<Block>, blocks: nat, f: Ref, sum: Checksums): seq<Piece> {
    match LoadRoot(v, blocks, f, sum)
    case None => []
    case Some(r) => [Piece(f.blk, 1, f.crc, 0)] + ObjPieces(r.objs)
  }

  function AllPieces(v: seq<Block>, blocks: nat, fs: seq<Ref>, sum: Checksums): seq<Piece> {
    if fs == [] then []
    else
      var k := |fs| - 1;
      AllPieces(v, blocks, fs[..k], sum) + RootPieces(v, blocks, fs[k], sum)
  }

  /** The root of a generation and all its extents verify. */
  predicate Loads(v: seq<Block>, blocks: nat, f: Ref, sum: Checksums) {
    var r := LoadRoot(v, blocks, f, sum);
    r.Some? && AllVerify(v, r.value.objs, sum)
  }

  predicate SuperShows(v: seq<Block>, slot: nat, cur: Root, curBlk: nat, sum: Checksums) {
    && slot < |v| && v[slot].SuperBlock?
    && var sb := v[slot].super; sb.gen == cur.gen && sb.rootBlk == curBlk && sb.rootCrc == sum.root(cur)
  }

  function SetOf(ps: seq<Piece>): set<Piece> {
    set p | p in ps
  }

  ghost predicate Apart(ps: set<Piece>) {
    forall e <- ps, d <- ps :: e == d || !Overlap(e.blk, e.nblk, d.blk, d.nblk)
  }

  /** The blocks in use are exactly those of the pieces. */
  ghost predicate UsedAre(total: nat, used: set<nat>, ps: set<Piece>) {
    && (forall e <- ps, b: nat | Within(e.blk, e.nblk, b) :: b in used)
    && (forall b <- used | FIRST_DATA <= b < total :: exists e <- ps :: Within(e.blk, e.nblk, b))
  }

  /** Everything that is checked is right, and there was room to check it. */
  ghost predicate Healthy(v: seq<Block>, blocks: nat, slot: nat, cur: Root, curBlk: nat, used: set<nat>,
                          sum: Checksums) {
    var fs := Checked(cur, curBlk, sum);
    var ps := SetOf(AllPieces(v, blocks, fs, sum));
    && SuperShows(v, slot, cur, curBlk, sum) && LoadRoot(v, blocks, fs[0], sum) == Some(cur)
    && (forall f <- fs :: Loads(v, blocks, f, sum))
    && |ps| <= EXTENTS_MAX && Apart(ps) && UsedAre(|v|, used, ps)
  }

  // ---- the table of extents ----

  /** The table once it has been given one more piece. */
  function Insert(t: seq<Piece>, p: Piece): seq<Piece> {
    if p in t || |t| >= EXTENTS_MAX then t else t + [p]
  }

  function Fill(t: seq<Piece>, ps: seq<Piece>): (r: seq<Piece>)
    decreases |ps|
  {
    if ps == [] then t
    else
      var k := |ps| - 1;
      Insert(Fill(t, ps[..k]), ps[k])
  }

  ghost predicate NoTwice(t: seq<Piece>) {
    forall i, j | 0 <= i < j < |t| :: t[i] != t[j]
  }

  lemma {:induction false} NoTwiceSize(t: seq<Piece>)
    requires NoTwice(t)
    ensures |SetOf(t)| == |t|
    decreases |t|
  {
    if t != [] {
      var k := |t| - 1;
      NoTwiceSize(t[..k]);
      assert SetOf(t) == SetOf(t[..k]) + {t[k]};
    }
  }

  lemma {:induction false} FillFacts(t: seq<Piece>, ps: seq<Piece>)
    requires NoTwice(t) && |t| <= EXTENTS_MAX
    ensures var r := Fill(t, ps); NoTwice(r) && |r| <= EXTENTS_MAX && t <= r && SetOf(r) <= SetOf(t) + SetOf(ps)
    decreases |ps|
  {
    if ps != [] {
      var k := |ps| - 1;
      FillFacts(t, ps[..k]);
      assert SetOf(ps) == SetOf(ps[..k]) + {ps[k]};
      var r := Fill(t, ps[..k]);
      assert SetOf(r + [ps[k]]) == SetOf(r) + {ps[k]};
    }
  }

  lemma {:induction false} FillTwo(t: seq<Piece>, ps: seq<Piece>, qs: seq<Piece>)
    ensures Fill(t, ps + qs) == Fill(Fill(t, ps), qs)
    decreases |qs|
  {
    if qs == [] {
      assert ps + qs == ps;
    } else {
      var k := |qs| - 1;
      FillTwo(t, ps, qs[..k]);
      assert (ps + qs)[..|ps + qs| - 1] == ps + qs[..k];
    }
  }

  /** Every piece has found its place in the table. */
  ghost predicate Room(t: seq<Piece>, ps: seq<Piece>) {
    forall p <- ps :: p in Fill(t, ps)
  }

  lemma {:induction false} FillKeeps(t: seq<Piece>, ps: seq<Piece>)
    ensures t <= Fill(t, ps) && (|t| >= EXTENTS_MAX ==> Fill(t, ps) == t)
    ensures (|t| <= EXTENTS_MAX ==> |Fill(t, ps)| <= EXTENTS_MAX)
    decreases |ps|
  {
    if ps != [] {
      FillKeeps(t, ps[..|ps| - 1]);
    }
  }

  /** What found no place found the table full. */
  lemma {:induction false} FillFull(t: seq<Piece>, ps: seq<Piece>)
    requires !Room(t, ps)
    ensures |Fill(t, ps)| >= EXTENTS_MAX
    decreases |ps|
  {
    var k := |ps| - 1;
    if !Room(t, ps[..k]) {
      FillFull(t, ps[..k]);
    } else {
      assert forall p <- ps :: p in ps[..k] || p == ps[k];
    }
  }

  /** More pieces: the first ones had to find room, and then the others. */
  lemma RoomTwo(t: seq<Piece>, ps: seq<Piece>, qs: seq<Piece>)
    ensures Room(t, ps + qs) <==> Room(t, ps) && Room(Fill(t, ps), qs)
  {
    var u := Fill(t, ps);
    FillTwo(t, ps, qs);
    FillKeeps(u, qs);
    if !Room(t, ps) {
      FillFull(t, ps);
      var p :| p in ps && p !in u;
      assert p in ps + qs && p !in Fill(t, ps + qs);
    } else {
      assert forall p <- ps :: p in Fill(u, qs);
      assert forall p <- qs :: p in ps + qs;
    }
  }

  /** There is room exactly if there are no more distinct pieces than the table takes. */
  lemma RoomIff(ps: seq<Piece>)
    ensures Room([], ps) <==> |SetOf(ps)| <= EXTENTS_MAX
    ensures SetOf(Fill([], ps)) <= SetOf(ps)
  {
    var r := Fill([], ps);
    FillFacts([], ps);
    NoTwiceSize(r);
    if Room([], ps) {
      assert SetOf(ps) == SetOf(r);
    } else {
      FillFull([], ps);
      var p :| p in ps && p !in r;
      assert p in SetOf(ps) && p !in SetOf(r);
      Smaller(SetOf(r), SetOf(ps));
    }
  }

  lemma Smaller(a: set<Piece>, b: set<Piece>)
    requires a < b
    ensures |a| < |b|
  {
    var x :| x in b && x !in a;
    assert a <= b - {x};
    SmallerEq(a, b - {x});
  }

  lemma {:induction false} SmallerEq(a: set<Piece>, b: set<Piece>)
    requires a <= b
    ensures |a| <= |b|
    decreases |a|
  {
    if a != {} {
      var x :| x in a;
      SmallerEq(a - {x}, b - {x});
    }
  }

  // ---- the check ----

  /** Enters a piece, unless it is there already; full if there is no room for it. */
  method AddExtent(ext: array<Piece>, n: nat, p: Piece) returns (n': nat, full: bool)
    requires ext.Length == EXTENTS_MAX && n <= EXTENTS_MAX
    modifies ext
    ensures n <= n' <= EXTENTS_MAX && ext[..n'] == Insert(old(ext[..n]), p)
    ensures full <==> p !in ext[..n']
  {
    for i := 0 to n
      invariant p !in ext[..i] && ext[..n] == old(ext[..n])
    {
      if ext[i] == p {
        return n, false;
      }
    }
    if n == EXTENTS_MAX {
      return n, true;
    }
    ext[n] := p;
    return n + 1, false;
  }

  method Listed(fs: seq<Ref>, f: Ref) returns (dup: bool)
    ensures dup <==> exists g <- fs :: SameRef(g, f)
  {
    for j := 0 to |fs|
      invariant forall g <- fs[..j] :: !SameRef(g, f)
    {
      if SameRef(fs[j], f) {
        return true;
      }
    }
    return false;
  }

  /** The references to check. */
  method FindRefs(all: seq<Ref>) returns (fs: seq<Ref>)
    ensures fs == Once(all)
  {
    fs := [];
    for i := 0 to |all|
      invariant fs == Once(all[..i])
    {
      assert all[..i + 1][..i] == all[..i];
      var dup := Listed(fs, all[i]);
      if !dup {
        fs := fs + [all[i]];
      }
    }
    assert all[..|all|] == all;
  }

  /** One object: its extent verifies, and is in the table. */
  method CheckObject(s: Store, v: seq<Block>, o: Obj, ext: array<Piece>, n: nat) returns (n': nat, ok: bool)
    requires o.blk + o.nblk <= |v| && o.nblk == NblkFor(o.len) && ext.Length == EXTENTS_MAX && n <= EXTENTS_MAX
    modifies ext
    ensures n <= n' <= EXTENTS_MAX && ext[..n'] == Fill(old(ext[..n]), OnePiece(o))
    ensures ok <==> ExtentOk(v, o, s.sum) && Room(old(ext[..n]), OnePiece(o))
  {
    n' := n;
    var full := false;
    var verified, _ := s.VerifyExtent(v, o);
    if o.nblk != 0 {
      var p := Piece(o.blk, o.nblk, o.crc, o.oid);
      OneFill(ext[..n], p);
      n', full := AddExtent(ext, n, p);
    }
    ok := verified && !full;
  }

  /** The objects verify. */
  predicate AllVerify(v: seq<Block>, objs: seq<Obj>, sum: Checksums) {
    forall o <- objs :: ExtentOk(v, o, sum)
  }

  /** One object more. */
  lemma OneMore(v: seq<Block>, objs: seq<Obj>, i: nat, sum: Checksums, t: seq<Piece>)
    requires i < |objs|
    ensures AllVerify(v, objs[..i + 1], sum) <==> AllVerify(v, objs[..i], sum) && ExtentOk(v, objs[i], sum)
    ensures var ps, qs := ObjPieces(objs[..i]), OnePiece(objs[i]);
      && Fill(t, ObjPieces(objs[..i + 1])) == Fill(Fill(t, ps), qs)
      && (Room(t, ObjPieces(objs[..i + 1])) <==> Room(t, ps) && Room(Fill(t, ps), qs))
  {
    assert objs[..i + 1] == objs[..i] + [objs[i]];
    assert objs[..i + 1][..i] == objs[..i];
    FillTwo(t, ObjPieces(objs[..i]), OnePiece(objs[i]));
    RoomTwo(t, ObjPieces(objs[..i]), OnePiece(objs[i]));
  }

  /** The objects of one generation. */
  method CheckObjects(s: Store, v: seq<Block>, objs: seq<Obj>, ext: array<Piece>, n: nat) returns (n': nat, ok: bool)
    requires forall o <- objs :: o.blk + o.nblk <= |v| && o.nblk == NblkFor(o.len)
    requires ext.Length == EXTENTS_MAX && n <= EXTENTS_MAX
    modifies ext
    ensures n <= n' <= EXTENTS_MAX && ext[..n'] == Fill(old(ext[..n]), ObjPieces(objs))
    ensures ok <==> AllVerify(v, objs, s.sum) && Room(old(ext[..n]), ObjPieces(objs))
  {
    n', ok := n, true;
    ghost var t := ext[..n];
    for i := 0 to |objs|
      invariant n <= n' <= EXTENTS_MAX && ext[..n'] == Fill(t, ObjPieces(objs[..i]))
      invariant ok <==> AllVerify(v, objs[..i], s.sum) && Room(t, ObjPieces(objs[..i]))
    {
      var good;
      n', good := CheckObject(s, v, objs[i], ext, n');
      ok := ok && good;
      OneMore(v, objs, i, s.sum, t);
    }
    assert objs[..|objs|] == objs;
  }

  /** The root and the extents of one generation. */
  method CheckRoot(s: Store, v: seq<Block>, f: Ref, ext: array<Piece>, n: nat) returns (n': nat, ok: bool)
    requires s.blocks <= |v| && ext.Length == EXTENTS_MAX && n <= EXTENTS_MAX
    modifies ext
    ensures n <= n' <= EXTENTS_MAX && ext[..n'] == Fill(old(ext[..n]), RootPieces(v, s.blocks, f, s.sum))
    ensures ok <==> Loads(v, s.blocks, f, s.sum) && Room(old(ext[..n]), RootPieces(v, s.blocks, f, s.sum))
  {
    n', ok := n, false;
    match LoadRoot(v, s.blocks, f, s.sum) {
      case None =>
      case Some(r) =>
        ghost var t := ext[..n];
        var first := Piece(f.blk, 1, f.crc, 0);
        var full;
        n', full := AddExtent(ext, n, first);
        OneFill(t, first);
        forall o <- r.objs ensures ObjShaped(o, r.gen, r.nextOid, s.blocks) {
        }
        n', ok := CheckObjects(s, v, r.objs, ext, n');
        ok := ok && !full;
        FillTwo(t, [first], ObjPieces(r.objs));
        RoomTwo(t, [first], ObjPieces(r.objs));
    }
  }

  lemma OneFill(t: seq<Piece>, p: Piece)
    ensures Fill(t, [p]) == Insert(t, p) && (Room(t, [p]) <==> p in Insert(t, p))
  {
    assert [p][..0] == [];
  }

  /** All generations. */
  method CheckRoots(s: Store, v: seq<Block>, fs: seq<Ref>, ext: array<Piece>) returns (n: nat, ok: bool)
    requires s.blocks <= |v| && ext.Length == EXTENTS_MAX
    modifies ext
    ensures n <= EXTENTS_MAX && ext[..n] == Fill([], AllPieces(v, s.blocks, fs, s.sum))
    ensures ok <==> (forall f <- fs :: Loads(v, s.blocks, f, s.sum)) && Room([], AllPieces(v, s.blocks, fs, s.sum))
  {
    n, ok := 0, true;
    for k := 0 to |fs|
      invariant n <= EXTENTS_MAX && ext[..n] == Fill([], AllPieces(v, s.blocks, fs[..k], s.sum))
      invariant ok <==>
                  (forall f <- fs[..k] :: Loads(v, s.blocks, f, s.sum))
                  && Room([], AllPieces(v, s.blocks, fs[..k], s.sum))
    {
      ghost var ps, qs := AllPieces(v, s.blocks, fs[..k], s.sum), RootPieces(v, s.blocks, fs[k], s.sum);
      var good;
      n, good := CheckRoot(s, v, fs[k], ext, n);
      ok := ok && good;
      assert fs[..k + 1][..k] == fs[..k];
      FillTwo([], ps, qs);
      RoomTwo([], ps, qs);
    }
    assert fs[..|fs|] == fs;
  }

  /** Any two pieces that overlap. */
  method FindOverlap(ext: array<Piece>, n: nat) returns (found: bool)
    requires n <= ext.Length && NoTwice(ext[..n])
    ensures found <==> !Apart(SetOf(ext[..n]))
  {
    ghost var t := ext[..n];
    for i := 0 to n
      invariant forall a, b | 0 <= a < i && a < b < n :: !Overlap(t[a].blk, t[a].nblk, t[b].blk, t[b].nblk)
    {
      for j := i + 1 to n
        invariant forall b | i < b < j :: !Overlap(t[i].blk, t[i].nblk, t[b].blk, t[b].nblk)
      {
        if Overlap(ext[i].blk, ext[i].nblk, ext[j].blk, ext[j].nblk) {
          assert t[i] in SetOf(t) && t[j] in SetOf(t) && t[i] != t[j];
          return true;
        }
      }
    }
    forall e <- SetOf(t), d <- SetOf(t) ensures e == d || !Overlap(e.blk, e.nblk, d.blk, d.nblk) {
      var a :| 0 <= a < n && t[a] == e;
      var b :| 0 <= b < n && t[b] == d;
      assert a == b || a < b || b < a;
    }
    return false;
  }

  /** Any block of a piece that is not in use. */
  method FindUnmarked(ext: array<Piece>, n: nat, used: set<nat>) returns (found: bool)
    requires n <= ext.Length
    ensures found <==> exists e <- ext[..n], b: nat :: Within(e.blk, e.nblk, b) && b !in used
  {
    for i := 0 to n
      invariant forall e <- ext[..i], b: nat | Within(e.blk, e.nblk, b) :: b in used
    {
      for k := 0 to ext[i].nblk
        invariant forall b: nat | ext[i].blk <= b < ext[i].blk + k :: b in used
      {
        if ext[i].blk + k !in used {
          assert ext[i] in ext[..n] && Within(ext[i].blk, ext[i].nblk, ext[i].blk + k);
          return true;
        }
      }
    }
    return false;
  }

  method InTable(ext: array<Piece>, n: nat, b: nat) returns (found: bool)
    requires n <= ext.Length
    ensures found <==> exists e <- ext[..n] :: Within(e.blk, e.nblk, b)
  {
    for i := 0 to n
      invariant forall e <- ext[..i] :: !Within(e.blk, e.nblk, b)
    {
      if ext[i].blk <= b < ext[i].blk + ext[i].nblk {
        assert ext[i] in ext[..n];
        return true;
      }
    }
    return false;
  }

  /** Any block in use that no piece has. */
  method FindUnreferenced(ext: array<Piece>, n: nat, used: set<nat>, blocks: nat) returns (found: bool)
    requires n <= ext.Length
    ensures found <==> exists b <- used :: FIRST_DATA <= b < blocks && forall e <- ext[..n] :: !Within(e.blk, e.nblk, b)
  {
    var b := FIRST_DATA;
    while b < blocks
      invariant forall c <- used | FIRST_DATA <= c < b :: exists e <- ext[..n] :: Within(e.blk, e.nblk, c)
    {
      if b in used {
        var ok := InTable(ext, n, b);
        if !ok {
          return true;
        }
      }
      b := b + 1;
    }
    return false;
  }

  /** The pieces in the table against each other and against the blocks in use. */
  method CheckTable(ext: array<Piece>, n: nat, used: set<nat>, total: nat, ghost ps: seq<Piece>) returns (ok: bool)
    requires n <= ext.Length && ext[..n] == Fill([], ps)
    ensures Room([], ps) ==> (ok <==> Apart(SetOf(ps)) && UsedAre(total, used, SetOf(ps)))
  {
    FillFacts([], ps);
    var overlap := FindOverlap(ext, n);
    var unmarked := FindUnmarked(ext, n, used);
    var unreferenced := FindUnreferenced(ext, n, used, total);
    ok := !overlap && !unmarked && !unreferenced;
    if Room([], ps) {
      assert SetOf(ext[..n]) == SetOf(ps);
    }
  }

  /** The check of a store: Ok exactly if it is mounted and healthy. */
  method Check(s: Store) returns (st: Status)
    requires s.Valid()
    ensures st == Ok || st == Corrupt
    ensures st == Ok <==> s.mounted && Healthy(s.dev.V(), s.blocks, s.curSlot, s.cur, s.curBlk, s.used, s.sum)
    ensures s.mounted && NoneLost(Top(s.led), TopLost(s.led)) ==>
              (st == Ok <==>
               |SetOf(AllPieces(s.dev.V(), s.blocks, Checked(s.cur, s.curBlk, s.sum), s.sum))| <= EXTENTS_MAX)
  {
    if !s.mounted {
      return Corrupt;
    }
    assert StoreKey(0, s);
    SafeSize(s.dev.V(), s.dev.M(), s.cfg, s.led);
    if NoneLost(Top(s.led), TopLost(s.led)) {
      SoundPassesIff(s.dev.V(), s.dev.M(), s.cfg, s.led, s.used);
    }
    var ok := Examine(s, s.dev.V());
    st := if ok then Ok else Corrupt;
  }

  method Examine(s: Store, v: seq<Block>) returns (ok: bool)
    requires s.blocks <= |v|
    ensures ok <==> Healthy(v, s.blocks, s.curSlot, s.cur, s.curBlk, s.used, s.sum)
  {
    var fs := FindRefs([Ref(s.cur.gen, s.curBlk, s.sum.root(s.cur))] + Refs(s.cur));
    var ext := new Piece[EXTENTS_MAX](_ => Piece(0, 0, 0, 0));
    var n, loaded := CheckRoots(s, v, fs, ext);
    ghost var ps := AllPieces(v, s.blocks, fs, s.sum);
    RoomIff(ps);
    var fine := CheckTable(ext, n, s.used, |v|, ps);
    ok := loaded && fine && SuperShows(v, s.curSlot, s.cur, s.curBlk, s.sum) && LoadRoot(v, s.blocks, fs[0],
                                                                                         s.sum) == Some(s.cur);
  }

  // ---- sound stores ----

  lemma InLast<T>(s: seq<T>, x: T)
    requires s != []
    ensures x in s <==> x in s[..|s| - 1] || x == s[|s| - 1]
  {
    assert s == s[..|s| - 1] + [s[|s| - 1]];
  }

  lemma {:induction false} ObjPiecesHas(objs: seq<Obj>, p: Piece)
    ensures p in ObjPieces(objs) <==> exists o <- objs :: p in OnePiece(o)
  {
    if objs != [] {
      var k := |objs| - 1;
      ObjPiecesHas(objs[..k], p);
      if p in ObjPieces(objs[..k]) {
        var o :| o in objs[..k] && p in OnePiece(o);
        InLast(objs, o);
      } else {
        forall o <- objs ensures p in OnePiece(o) <==> o == objs[k] && p in OnePiece(objs[k]) {
          InLast(objs, o);
        }
      }
    }
  }

  lemma {:induction false} AllPiecesHas(v: seq<Block>, blocks: nat, fs: seq<Ref>, sum: Checksums, p: Piece)
    ensures p in AllPieces(v, blocks, fs, sum) <==> exists f <- fs :: p in RootPieces(v, blocks, f, sum)
  {
    if fs != [] {
      var k := |fs| - 1;
      AllPiecesHas(v, blocks, fs[..k], sum, p);
      if p in AllPieces(v, blocks, fs[..k], sum) {
        var f :| f in fs[..k] && p in RootPieces(v, blocks, f, sum);
        InLast(fs, f);
      } else {
        forall f <- fs
          ensures p in RootPieces(v, blocks, f, sum) <==> f == fs[k] && p in RootPieces(v, blocks, fs[k], sum)
        {
          InLast(fs, f);
        }
      }
    }
  }

  lemma {:induction false} OnceHas(fs: seq<Ref>, f: Ref)
    requires f in fs
    ensures exists g <- Once(fs) :: SameRef(g, f)
  {
    var k := |fs| - 1;
    var r := Once(fs[..k]);
    if f in fs[..k] {
      OnceHas(fs[..k], f);
      var g :| g in r && SameRef(g, f);
      assert g in Once(fs);
    } else {
      assert f == fs[k];
      if !exists g <- r :: SameRef(g, f) {
        assert (r + [f])[|r|] == f;
        assert f in Once(fs) && SameRef(f, f);
      }
    }
  }

  /** The root block and the data extents of a retained generation. */
  ghost predicate PieceOf(v: seq<Block>, f: Ref, e: Piece)
    requires f.blk < |v| && v[f.blk].RootBlock?
  {
    || e == Piece(f.blk, 1, f.crc, 0)
    || exists o <- v[f.blk].root.objs :: o.nblk != 0 && e == Piece(o.blk, o.nblk, o.crc, o.oid)
  }

  lemma FirmPieces(v: seq<Block>, m: seq<set<Block>>, cfg: Config, f: Ref, truth: map<nat, Contents>, p: Piece)
    requires RefFirm(v, m, cfg, f, truth)
    ensures Loads(v, cfg.n, f, cfg.sum) && LoadRoot(v, cfg.n, f, cfg.sum) == Some(v[f.blk].root)
    ensures p in RootPieces(v, cfg.n, f, cfg.sum) <==> PieceOf(v, f, p)
  {
    ObjPiecesHas(v[f.blk].root.objs, p);
  }

  lemma RetainedCases(cfg: Config, cur: Root, curBlk: nat, f: Ref)
    requires f in Retained(cfg, cur, curBlk)
    ensures f == RefOf(cfg, cur, curBlk) || f in Refs(cur)
  {
  }

  lemma PiecesApart(v: seq<Block>, f: Ref, h: Ref, e: Piece, d: Piece)
    requires f.blk < |v| && v[f.blk].RootBlock? && h.blk < |v| && v[h.blk].RootBlock?
    requires RootsApart(v[f.blk].root, f.blk, v[h.blk].root, h.blk) && (f.blk == h.blk ==> f == h)
    requires PieceOf(v, f, e) && PieceOf(v, h, d)
    ensures e == d || !Overlap(e.blk, e.nblk, d.blk, d.nblk)
  {
    if e != Piece(f.blk, 1, f.crc, 0) {
      var o :| o in v[f.blk].root.objs && o.nblk != 0 && e == Piece(o.blk, o.nblk, o.crc, o.oid);
      if d != Piece(h.blk, 1, h.crc, 0) {
        var p :| p in v[h.blk].root.objs && p.nblk != 0 && d == Piece(p.blk, p.nblk, p.crc, p.oid);
        assert SharedOrApart(o, p);
      } else {
        assert !Covers(o, h.blk);
      }
    } else if d != Piece(h.blk, 1, h.crc, 0) {
      var p :| p in v[h.blk].root.objs && p.nblk != 0 && d == Piece(p.blk, p.nblk, p.crc, p.oid);
      assert !Covers(p, f.blk);
    }
  }

  lemma PieceUsed(v: seq<Block>, cfg: Config, f: Ref, e: Piece, b: nat)
    requires f.blk < |v| && v[f.blk].RootBlock? && PieceOf(v, f, e) && Within(e.blk, e.nblk, b)
    ensures b in RootBlocks(v[f.blk].root, f.blk)
  {
    if e != Piece(f.blk, 1, f.crc, 0) {
      var o :| o in v[f.blk].root.objs && o.nblk != 0 && e == Piece(o.blk, o.nblk, o.crc, o.oid);
      ExtentInRoot(v[f.blk].root, f.blk, o, b);
    }
  }

  lemma UsedPiece(v: seq<Block>, f: Ref, b: nat) returns (e: Piece)
    requires f.blk < |v| && v[f.blk].RootBlock? && b in RootBlocks(v[f.blk].root, f.blk)
    ensures PieceOf(v, f, e) && Within(e.blk, e.nblk, b)
  {
    if b == f.blk {
      e := Piece(f.blk, 1, f.crc, 0);
    } else {
      var o :| o in v[f.blk].root.objs && b in Extent(o);
      e := Piece(o.blk, o.nblk, o.crc, o.oid);
    }
  }

  lemma UsedBy(v: seq<Block>, m: seq<set<Block>>, cfg: Config, g: Gen, truth: map<nat, Contents>, lost: set<nat>,
               b: nat) returns (f: Ref)
    requires GenOk(v, m, cfg, g, truth, lost) && (forall f <- Refs(g.root) :: f.gen !in lost)
    requires b >= FIRST_DATA && b in UsedBlocks(v, cfg.n, g.root, g.blk, cfg.sum)
    ensures f in Retained(cfg, g.root, g.blk) && RefFirm(v, m, cfg, f, truth) && b in RootBlocks(v[f.blk].root, f.blk)
  {
    if b in Marked(g.root, g.blk, cfg.n) {
      f := RefOf(cfg, g.root, g.blk);
      assert f == Retained(cfg, g.root, g.blk)[0];
    } else {
      f := RefsUsedOnly(v, cfg.n, Refs(g.root), cfg.sum, b);
      assert f in Retained(cfg, g.root, g.blk) && Has(g.root, lost, f);
      assert RefFirm(v, m, cfg, f, truth);
    }
  }

  /** Nothing that g retains may be lost. */
  ghost predicate NoneLost(g: Gen, lost: set<nat>) {
    forall f <- Refs(g.root) :: f.gen !in lost
  }

  lemma AllFirm(v: seq<Block>, m: seq<set<Block>>, cfg: Config, g: Gen, truth: map<nat, Contents>, lost: set<nat>,
                f: Ref)
    requires GenOk(v, m, cfg, g, truth, lost) && NoneLost(g, lost) && f in Retained(cfg, g.root, g.blk)
    ensures RefFirm(v, m, cfg, f, truth) && (f == RefOf(cfg, g.root, g.blk) || Has(g.root, lost, f))
  {
    RetainedCases(cfg, g.root, g.blk, f);
    assert f in Refs(g.root) ==> Has(g.root, lost, f);
    RetainedFirm(v, m, cfg, g, truth, lost, f);
  }

  lemma FirmSame(v: seq<Block>, m: seq<set<Block>>, cfg: Config, f: Ref, h: Ref, truth: map<nat, Contents>)
    requires RefFirm(v, m, cfg, f, truth) && RefFirm(v, m, cfg, h, truth) && SameRef(h, f)
    ensures h == f
  {
  }

  /** In a sound store, what is checked is all that is retained. */
  lemma CheckedAll(v: seq<Block>, m: seq<set<Block>>, cfg: Config, g: Gen, truth: map<nat, Contents>, lost: set<nat>,
                   f: Ref)
    requires GenOk(v, m, cfg, g, truth, lost) && NoneLost(g, lost) && f in Retained(cfg, g.root, g.blk)
    ensures f in Checked(g.root, g.blk, cfg.sum)
  {
    var all := Retained(cfg, g.root, g.blk);
    OnceHas(all, f);
    var h :| h in Once(all) && SameRef(h, f);
    AllFirm(v, m, cfg, g, truth, lost, f);
    AllFirm(v, m, cfg, g, truth, lost, h);
    FirmSame(v, m, cfg, f, h, truth);
  }

  /** Where a piece of a sound store comes from. */
  lemma PieceFrom(v: seq<Block>, m: seq<set<Block>>, cfg: Config, g: Gen, truth: map<nat, Contents>, lost: set<nat>,
                  e: Piece)
    returns (f: Ref)
    requires GenOk(v, m, cfg, g, truth, lost) && NoneLost(g, lost)
    requires e in AllPieces(v, cfg.n, Checked(g.root, g.blk, cfg.sum), cfg.sum)
    ensures f in Retained(cfg, g.root, g.blk) && RefFirm(v, m, cfg, f, truth) && PieceOf(v, f, e)
    ensures f == RefOf(cfg, g.root, g.blk) || Has(g.root, lost, f)
  {
    var fs := Checked(g.root, g.blk, cfg.sum);
    AllPiecesHas(v, cfg.n, fs, cfg.sum, e);
    f :| f in fs && e in RootPieces(v, cfg.n, f, cfg.sum);
    AllFirm(v, m, cfg, g, truth, lost, f);
    FirmPieces(v, m, cfg, f, truth, e);
  }

  lemma SoundApart(v: seq<Block>, m: seq<set<Block>>, cfg: Config, g: Gen, truth: map<nat, Contents>, lost: set<nat>,
                   e: Piece, d: Piece)
    requires GenOk(v, m, cfg, g, truth, lost) && NoneLost(g, lost)
    requires e in AllPieces(v, cfg.n, Checked(g.root, g.blk, cfg.sum), cfg.sum)
    requires d in AllPieces(v, cfg.n, Checked(g.root, g.blk, cfg.sum), cfg.sum)
    ensures e == d || !Overlap(e.blk, e.nblk, d.blk, d.nblk)
  {
    var f := PieceFrom(v, m, cfg, g, truth, lost, e);
    var h := PieceFrom(v, m, cfg, g, truth, lost, d);
    RetainedApart(v, m, cfg, g, truth, lost, f, h);
    PiecesApart(v, f, h, e, d);
  }

  lemma SoundMarked(v: seq<Block>, m: seq<set<Block>>, cfg: Config, g: Gen, truth: map<nat, Contents>, lost: set<nat>,
                    e: Piece, b: nat)
    requires GenOk(v, m, cfg, g, truth, lost) && NoneLost(g, lost)
    requires e in AllPieces(v, cfg.n, Checked(g.root, g.blk, cfg.sum), cfg.sum) && Within(e.blk, e.nblk, b)
    ensures b in UsedBlocks(v, cfg.n, g.root, g.blk, cfg.sum)
  {
    var f := PieceFrom(v, m, cfg, g, truth, lost, e);
    PieceUsed(v, cfg, f, e, b);
    UsedGuards(v, m, cfg, g, truth, lost);
  }

  lemma SoundReferenced(v: seq<Block>, m: seq<set<Block>>, cfg: Config, g: Gen, truth: map<nat, Contents>,
                        lost: set<nat>, b: nat)
    returns (e: Piece)
    requires GenOk(v, m, cfg, g, truth, lost) && NoneLost(g, lost)
    requires b >= FIRST_DATA && b in UsedBlocks(v, cfg.n, g.root, g.blk, cfg.sum)
    ensures e in AllPieces(v, cfg.n, Checked(g.root, g.blk, cfg.sum), cfg.sum) && Within(e.blk, e.nblk, b)
  {
    var f := UsedBy(v, m, cfg, g, truth, lost, b);
    e := UsedPiece(v, f, b);
    FirmPieces(v, m, cfg, f, truth, e);
    CheckedAll(v, m, cfg, g, truth, lost, f);
    AllPiecesHas(v, cfg.n, Checked(g.root, g.blk, cfg.sum), cfg.sum, e);
  }

  lemma SoundLoads(v: seq<Block>, m: seq<set<Block>>, cfg: Config, g: Gen, truth: map<nat, Contents>, lost: set<nat>)
    requires GenOk(v, m, cfg, g, truth, lost) && NoneLost(g, lost)
    ensures forall f <- Checked(g.root, g.blk, cfg.sum) :: Loads(v, cfg.n, f, cfg.sum)
    ensures LoadRoot(v, cfg.n, RefOf(cfg, g.root, g.blk), cfg.sum) == Some(g.root)
  {
    forall f <- Checked(g.root, g.blk, cfg.sum) ensures Loads(v, cfg.n, f, cfg.sum) {
      AllFirm(v, m, cfg, g, truth, lost, f);
      FirmPieces(v, m, cfg, f, truth, Piece(0, 0, 0, 0));
    }
  }

  lemma SoundUsed(v: seq<Block>, m: seq<set<Block>>, cfg: Config, g: Gen, truth: map<nat, Contents>, lost: set<nat>,
                  used: set<nat>)
    requires GenOk(v, m, cfg, g, truth, lost) && NoneLost(g, lost)
    requires used == UsedBlocks(v, cfg.n, g.root, g.blk, cfg.sum)
    ensures var ps := SetOf(AllPieces(v, cfg.n, Checked(g.root, g.blk, cfg.sum), cfg.sum));
            Apart(ps) && UsedAre(|v|, used, ps)
  {
    var ps := SetOf(AllPieces(v, cfg.n, Checked(g.root, g.blk, cfg.sum), cfg.sum));
    forall e <- ps, d <- ps ensures e == d || !Overlap(e.blk, e.nblk, d.blk, d.nblk) {
      SoundApart(v, m, cfg, g, truth, lost, e, d);
    }
    forall e <- ps, b: nat | Within(e.blk, e.nblk, b) ensures b in used {
      SoundMarked(v, m, cfg, g, truth, lost, e, b);
    }
    forall b <- used | FIRST_DATA <= b < |v| ensures exists e <- ps :: Within(e.blk, e.nblk, b) {
      var e := SoundReferenced(v, m, cfg, g, truth, lost, b);
    }
  }

  lemma HealthyIff(v: seq<Block>, blocks: nat, slot: nat, cur: Root, curBlk: nat, used: set<nat>, sum: Checksums)
    requires SuperShows(v, slot, cur, curBlk, sum)
    requires LoadRoot(v, blocks, Ref(cur.gen, curBlk, sum.root(cur)), sum) == Some(cur)
    requires forall f <- Checked(cur, curBlk, sum) :: Loads(v, blocks, f, sum)
    requires var ps := SetOf(AllPieces(v, blocks, Checked(cur, curBlk, sum), sum)); Apart(ps) && UsedAre(|v|, used, ps)
    ensures Healthy(v, blocks, slot, cur, curBlk, used, sum) <==>
              |SetOf(AllPieces(v, blocks, Checked(cur, curBlk, sum), sum))| <= EXTENTS_MAX
  {
  }

  lemma TopShows(v: seq<Block>, m: seq<set<Block>>, cfg: Config, l: Ledger)
    requires DiskInv(v, m, cfg, l)
    ensures SuperShows(v, Top(l).slot, Top(l).root, Top(l).blk, cfg.sum)
    ensures GenOk(v, m, cfg, Top(l), l.truth, TopLost(l))
  {
    MountFindsTop(v, m, cfg, l);
  }

  lemma {:induction false} LoadsUndamaged(v: seq<Block>, blocks: nat, fs: seq<Ref>, sum: Checksums)
    requires forall f <- fs :: LoadRoot(v, blocks, f, sum).Some?
    ensures Damaged(v, blocks, fs, sum) == 0
  {
    if fs != [] {
      var k := |fs| - 1;
      assert fs[k] in fs && forall f <- fs[..k] :: f in fs;
      LoadsUndamaged(v, blocks, fs[..k], sum);
    }
  }

  lemma RefLoads(v: seq<Block>, m: seq<set<Block>>, cfg: Config, g: Gen, truth: map<nat, Contents>, lost: set<nat>,
                 f: Ref)
    requires GenOk(v, m, cfg, g, truth, lost) && NoneLost(g, lost) && f in Refs(g.root)
    ensures LoadRoot(v, cfg.n, f, cfg.sum).Some?
  {
    var i :| 0 <= i < |Refs(g.root)| && Refs(g.root)[i] == f;
    assert Retained(cfg, g.root, g.blk)[1 + i] == f;
    AllFirm(v, m, cfg, g, truth, lost, f);
    FirmPieces(v, m, cfg, f, truth, Piece(0, 0, 0, 0));
  }

  lemma SoundUndamaged(v: seq<Block>, m: seq<set<Block>>, cfg: Config, g: Gen, truth: map<nat, Contents>,
                       lost: set<nat>)
    requires GenOk(v, m, cfg, g, truth, lost) && NoneLost(g, lost)
    ensures Damaged(v, cfg.n, Refs(g.root), cfg.sum) == 0
  {
    forall f <- Refs(g.root) ensures LoadRoot(v, cfg.n, f, cfg.sum).Some? {
      RefLoads(v, m, cfg, g, truth, lost, f);
    }
    LoadsUndamaged(v, cfg.n, Refs(g.root), cfg.sum);
  }

  /** As long as nothing retained may be lost, a mount reports the newest generation, and no damage. */
  lemma SoundReport(v: seq<Block>, m: seq<set<Block>>, cfg: Config, l: Ledger)
    requires Safe(v, m, cfg, l) && NoneLost(Top(l), TopLost(l))
    ensures |v| >= MIN_BLOCKS
    ensures var rep := MountReport(v, cfg.sum);
            rep.slot == Some(Top(l).slot) && rep.gen == Top(l).root.gen == rep.maxGen && rep.damaged == 0
  {
    SafeInv(v, m, cfg, l);
    MountFindsTop(v, m, cfg, l);
    TopUndamaged(v, m, cfg, l);
  }

  lemma TopUndamaged(v: seq<Block>, m: seq<set<Block>>, cfg: Config, l: Ledger)
    requires Safe(v, m, cfg, l) && NoneLost(Top(l), TopLost(l))
    ensures Damaged(v, cfg.n, Refs(Top(l).root), cfg.sum) == 0
  {
    SafeInv(v, m, cfg, l);
    TopShows(v, m, cfg, l);
    SoundUndamaged(v, m, cfg, Top(l), l.truth, TopLost(l));
  }

  /** As long as nothing retained may be lost the check passes exactly if the table has room for all the
      distinct root blocks and extents. */
  lemma SoundPassesIff(v: seq<Block>, m: seq<set<Block>>, cfg: Config, l: Ledger, used: set<nat>)
    requires Safe(v, m, cfg, l) && NoneLost(Top(l), TopLost(l)) && InUse(v, cfg, Top(l).root, Top(l).blk, used)
    ensures var g := Top(l);
            && (Healthy(v, cfg.n, g.slot, g.root, g.blk, used, cfg.sum) <==>
                |SetOf(AllPieces(v, cfg.n, Checked(g.root, g.blk, cfg.sum), cfg.sum))| <= EXTENTS_MAX)
  {
    var g := Top(l);
    SafeInv(v, m, cfg, l);
    assert UseKey(0, v, used);
    TopShows(v, m, cfg, l);
    SoundLoads(v, m, cfg, g, l.truth, TopLost(l));
    SoundUsed(v, m, cfg, g, l.truth, TopLost(l), used);
    HealthyIff(v, cfg.n, g.slot, g.root, g.blk, used, cfg.sum);
  }

  lemma {:induction false} PieceCount(v: seq<Block>, blocks: nat, fs: seq<Ref>, sum: Checksums)
    ensures |AllPieces(v, blocks, fs, sum)| <= (1 + OBJ_MAX) * |fs|
  {
    if fs != [] {
      PieceCount(v, blocks, fs[..|fs| - 1], sum);
    }
  }

  lemma {:induction false} SetSize(ps: seq<Piece>)
    ensures |SetOf(ps)| <= |ps|
  {
    if ps != [] {
      var k := |ps| - 1;
      SetSize(ps[..k]);
      assert SetOf(ps) == SetOf(ps[..k]) + {ps[k]};
    }
  }

  /** A sound store that retains no more than twelve generations, the current one among them, passes. */
  lemma TwelvePass(v: seq<Block>, m: seq<set<Block>>, cfg: Config, l: Ledger, used: set<nat>)
    requires Safe(v, m, cfg, l) && NoneLost(Top(l), TopLost(l)) && InUse(v, cfg, Top(l).root, Top(l).blk, used)
    requires |Checked(Top(l).root, Top(l).blk, cfg.sum)| <= 12
    ensures Healthy(v, cfg.n, Top(l).slot, Top(l).root, Top(l).blk, used, cfg.sum)
  {
    var fs := Checked(Top(l).root, Top(l).blk, cfg.sum);
    SoundPassesIff(v, m, cfg, l, used);
    PieceCount(v, cfg.n, fs, cfg.sum);
    SetSize(AllPieces(v, cfg.n, fs, cfg.sum));
  }
}
