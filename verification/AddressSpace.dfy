/** Task address spaces: created with the kernel's part shared, grown page by page, destroyed. */
module AddressSpace {
  import opened Common
  import opened PhysMem
  import opened PageTree
  import opened PageUpdate
  import opened PageRights
  import opened PageTeardown
  import opened PageTables

  // ---- creation ----

  /** A new root: the shared slots copied from the kernel's root, the user's slots empty. */
  function RootFrom(src: seq<Pte>): (t: seq<Pte>)
    requires |src| == 512
    ensures |t| == 512 && forall i | 0 <= i < 512 :: t[i] == if 1 <= i <= 255 then ZERO else src[i]
  {
    seq(512, i requires 0 <= i < 512 => if 1 <= i <= 255 then ZERO else src[i])
  }

  lemma RootTree(mem: Memory, at: map<nat, Place>, kernel: nat, p: nat)
    requires mem.Keys == at.Keys && Tree(mem, at, kernel) && kernel in mem && |mem[kernel]| == 512 && p !in mem
    ensures Tree(mem[p := RootFrom(mem[kernel])], at[p := Place(p, [], 0)], kernel)
  {
    OpenTree(mem, at, kernel);
    var mem', at' := mem[p := RootFrom(mem[kernel])], at[p := Place(p, [], 0)];
    assert TableOk(mem, at, kernel, kernel);
    forall s | s in mem' ensures TableOk(mem', at', kernel, s) && Attached(mem', at', s) {
      if s == p {
        forall i | 0 <= i < 512 ensures EntryOk(mem', at', kernel, p, i) {
          assert EntryOk(mem, at, kernel, kernel, i);
        }
      } else {
        assert TableOk(mem, at, kernel, s) && Attached(mem, at, s);
        forall i | 0 <= i < 512 ensures EntryOk(mem', at', kernel, s, i) {
          assert EntryOk(mem, at, kernel, s, i);
        }
      }
    }
    forall s, t | s in at' && t in at' && SamePlace(at'[s], at'[t]) ensures s == t {
      if s in mem {
        assert TableOk(mem, at, kernel, s);
      }
      if t in mem {
        assert TableOk(mem, at, kernel, t);
      }
    }
    CloseTree(mem', at', kernel);
  }

  /** A new root leads where the kernel's does. */
  lemma RootNested(mem: Memory, at: map<nat, Place>, kernel: nat, p: nat)
    requires mem.Keys == at.Keys && Tree(mem, at, kernel) && kernel in mem && |mem[kernel]| == 512 && p !in mem
    requires Nested(mem, at)
    ensures Nested(mem[p := RootFrom(mem[kernel])], at[p := Place(p, [], 0)])
  {
    OpenTree(mem, at, kernel);
    var mem', at' := mem[p := RootFrom(mem[kernel])], at[p := Place(p, [], 0)];
    forall s: nat, j: nat | s in mem' && s in at' && j < |mem'[s]| && |at'[s].path| <= 3
      ensures Leads(mem', mem'[s][j], 3 - |at'[s].path|)
    {
      var t := if s == p then kernel else s;
      assert TableOk(mem, at, kernel, t) && EntryOk(mem, at, kernel, t, j);
      NestedAt(mem, at, t, j);
    }
  }

  /** A memory with one more table behaves as before for those that do not refer to it. */
  lemma {:induction false} LookupMore(mem: Memory, at: map<nat, Place>, kernel: nat, p: nat, tab: seq<Pte>, t: nat,
                                      level: nat, w: nat)
    requires TreeOk(mem, at, kernel) && p !in mem && level < 4 && OnWalk(at, t, level, w)
    ensures Lookup(mem[p := tab], t, level, w) == Lookup(mem, t, level, w)
    decreases level
  {
    assert TableOk(mem, at, kernel, t);
    if level > 0 {
      WalkNext(mem, at, kernel, t, level, w);
      var e := mem[t][Index(w, level)];
      if Refers(e, level) {
        LookupMore(mem, at, kernel, p, tab, e.frame, level - 1, w);
      }
    }
  }

  /** What the new root translates: the kernel's part, and nothing in the user's. */
  lemma RootWalk(mem: Memory, at: map<nat, Place>, kernel: nat, p: nat, w: nat)
    requires mem.Keys == at.Keys && Tree(mem, at, kernel) && kernel in mem && |mem[kernel]| == 512 && p !in mem
    ensures var mem' := mem[p := RootFrom(mem[kernel])];
            Lookup(mem', p, 3, w) == if 1 <= Index(w, 3) <= 255 then None else Lookup(mem, kernel, 3, w)
  {
    OpenTree(mem, at, kernel);
    var tab := RootFrom(mem[kernel]);
    var i := Index(w, 3);
    assert TableOk(mem, at, kernel, kernel);
    assert EntryOk(mem, at, kernel, kernel, i);
    WalkNext(mem, at, kernel, kernel, 3, w);
    if !(1 <= i <= 255) && Present(mem[kernel][i]) {
      LookupMore(mem, at, kernel, p, tab, mem[kernel][i].frame, 2, w);
    }
  }

  // ---- destruction of slots ----

  /** The tables of root behind slots first up to k. */
  ghost predicate InSlots(at: map<nat, Place>, root: nat, first: nat, k: nat, s: nat) {
    s in at && at[s].root == root && at[s].path != [] && first <= at[s].path[0] < k
  }

  ghost function SlotTables(at: map<nat, Place>, root: nat, first: nat, k: nat): set<nat> {
    set s | s in at && InSlots(at, root, first, k, s)
  }

  /** A leaf of root in those slots. */
  ghost predicate SlotLeaf(mem: Memory, at: map<nat, Place>, root: nat, first: nat, k: nat, x: Spot) {
    InSlots(at, root, first, k, x.t) && LeafSpot(mem, at, root, [at[x.t].path[0]], x)
  }

  ghost predicate SlotLeaves(mem: Memory, at: map<nat, Place>, root: nat, first: nat, k: nat, xs: seq<Spot>) {
    Distinct(xs) && forall x :: x in xs <==> SlotLeaf(mem, at, root, first, k, x)
  }

  /** The memory after slots first up to k of root are destroyed. */
  ghost predicate SlotsGone(mem0: Memory, at0: map<nat, Place>, mem: Memory, at: map<nat, Place>, root: nat, first: nat,
                            k: nat) {
    && at == at0 - SlotTables(at0, root, first, k)
    && (forall t | t in mem && t in mem0 :: t != root ==> mem[t] == mem0[t])
  }

  lemma SlotTablesNext(at: map<nat, Place>, root: nat, first: nat, k: nat)
    requires first <= k
    ensures SlotTables(at, root, first, k) !! Subtree(at, root, [k])
    ensures SlotTables(at, root, first, k + 1) == SlotTables(at, root, first, k) + Subtree(at, root, [k])
    ensures Subtree(at - SlotTables(at, root, first, k), root, [k]) == Subtree(at, root, [k])
  {
    var at' := at - SlotTables(at, root, first, k);
    forall s | s in at
      ensures InSlots(at, root, first, k + 1, s) <==> InSlots(at, root, first, k, s) || Under(at, root, [k], s)
      ensures !(InSlots(at, root, first, k, s) && Under(at, root, [k], s))
      ensures Under(at, root, [k], s) <==> s in at' && Under(at', root, [k], s)
    {
      PrefixOne(at[s].path, k);
    }
  }

  lemma PrefixOne(p: seq<nat>, k: nat)
    ensures [k] <= p <==> p != [] && p[0] == k
  {
    if p != [] && p[0] == k {
      assert p[..1] == [k];
    }
  }

  /** The leaves of the next slot are those it had at the beginning. */
  lemma SlotLeavesNext(mem0: Memory, at0: map<nat, Place>, mem: Memory, at: map<nat, Place>, root: nat, first: nat,
                       k: nat, xs: seq<Spot>, ys: seq<Spot>)
    requires SlotsGone(mem0, at0, mem, at, root, first, k) && first <= k && IsRoot(at0, root) && mem.Keys == at.Keys
    requires mem0.Keys == at0.Keys
    requires SlotLeaves(mem0, at0, root, first, k, xs) && AllLeaves(mem, at, root, [k], ys)
    ensures SlotLeaves(mem0, at0, root, first, k + 1, xs + ys)
  {
    SlotTablesNext(at0, root, first, k);
    forall x
      ensures x in xs + ys <==> SlotLeaf(mem0, at0, root, first, k + 1, x)
      ensures !(x in xs && x in ys)
    {
      if x.t in at0 {
        PrefixOne(at0[x.t].path, k);
      }
      assert x in ys <==> LeafSpot(mem, at, root, [k], x);
      assert x in xs <==> SlotLeaf(mem0, at0, root, first, k, x);
      assert Under(at, root, [k], x.t) <==> Under(at0, root, [k], x.t) by {
        assert Under(at0, root, [k], x.t) ==> x.t in Subtree(at0, root, [k]);
      }
    }
    DistinctJoin(xs, ys);
  }

  // ---- leaves and addresses ----

  /** An address with the given path (in the lower half). */
  function AddressOf(p: seq<nat>): nat
    requires |p| == 4
  {
    (((p[0] * 512 + p[1]) * 512 + p[2]) * 512 + p[3]) * 0x1000
  }

  lemma Digit(q: nat, r: nat)
    requires r < 512
    ensures (q * 512 + r) / 512 == q && (q * 512 + r) % 512 == r
  {
  }

  lemma AddressPath(p: seq<nat>)
    requires |p| == 4 && forall k | 0 <= k < 4 :: p[k] < 512
    ensures Path(AddressOf(p)) == p
  {
    var w, y := AddressOf(p), p[0] * 512 + p[1];
    var z := y * 512 + p[2];
    Digit(z, p[3]);
    Digit(y, p[2]);
    Digit(p[0], p[1]);
    SpanUp(w, 0);
    SpanUp(w, 1);
    SpanUp(w, 2);
    assert w / Span(0) == z * 512 + p[3];
  }

  /** A walk along the path of a table reaches it. */
  lemma {:induction false} DescendTo(mem: Memory, at: map<nat, Place>, kernel: nat, s: nat, w: nat, level: nat)
    requires TreeOk(mem, at, kernel) && s in at && level < 3 && at[s].path == Path(w)[..3 - level]
    requires IsRoot(at, at[s].root)
    ensures Descend(mem, at[s].root, 3, w, level) == Some(s)
    decreases |at[s].path|
  {
    assert TableOk(mem, at, kernel, s) && Attached(mem, at, s);
    var u, p := at[s].up, at[s].path;
    assert TableOk(mem, at, kernel, u);
    assert p[..|p| - 1] == Path(w)[..3 - (level + 1)];
    PathAt(w, level + 1);
    assert p[|p| - 1] == Path(w)[3 - (level + 1)];
    if level == 2 {
      assert u == at[s].root;
      assert Descend(mem, u, 3, w, 3) == Some(u);
    } else {
      DescendTo(mem, at, kernel, u, w, level + 1);
    }
    DescendMore(mem, at[s].root, 3, w, level + 1);
  }

  /** Some address is translated by the leaf at spot x. */
  lemma SpotWalk(mem: Memory, at: map<nat, Place>, kernel: nat, root: nat, x: Spot) returns (w: nat)
    requires mem.Keys == at.Keys && Tree(mem, at, kernel) && IsRoot(at, root) && LeafSpot(mem, at, root, [], x)
    requires at[x.t].path != []
    ensures |at[x.t].path| <= 3 && x.i < |mem[x.t]| && Path(w)[..|at[x.t].path| + 1] == at[x.t].path + [x.i]
    ensures Lookup(mem, root, 3, w) == Some(Leaf(mem[x.t][x.i], LevelOf(at[x.t])))
  {
    OpenTree(mem, at, kernel);
    assert TableOk(mem, at, kernel, x.t);
    PathAll(mem, at, kernel, x.t);
    var p := at[x.t].path;
    var full := p + [x.i] + seq(3 - |p|, i => 0);
    w := AddressOf(full);
    AddressPath(full);
    var level := LevelOf(at[x.t]);
    assert Path(w)[..3 - level] == p;
    DescendTo(mem, at, kernel, x.t, w, level);
    DescendLookup(mem, root, 3, w, level);
    PathAt(w, level);
  }

  lemma {:induction false} PathAll(mem: Memory, at: map<nat, Place>, kernel: nat, u: nat)
    requires TreeOk(mem, at, kernel) && u in at
    ensures forall k | 0 <= k < |at[u].path| :: at[u].path[k] < 512
    decreases |at[u].path|
  {
    if at[u].path != [] {
      PathBound(mem, at, kernel, u);
      assert TableOk(mem, at, kernel, u) && Attached(mem, at, u);
      PathAll(mem, at, kernel, at[u].up);
      var p, q := at[u].path, at[at[u].up].path;
      assert forall k | 0 <= k < |q| :: p[k] == q[k];
    }
  }

  /** A translated address has its leaf at a spot. */
  lemma {:induction false} WalkSpot(mem: Memory, t: nat, l: nat, w: nat)
    requires l < 4 && Lookup(mem, t, l, w).Some?
    ensures var f := Lookup(mem, t, l, w).value;
            && f.level <= l && Descend(mem, t, l, w, f.level).Some?
            && var s := Descend(mem, t, l, w, f.level).value;
               s in mem && |mem[s]| == 512 && mem[s][Index(w, f.level)] == f.entry && Present(f.entry)
               && IsLeaf(f.entry, f.level)
    decreases l
  {
    var e := mem[t][Index(w, l)];
    if !IsLeaf(e, l) {
      WalkSpot(mem, e.frame, l - 1, w);
    }
  }

  // ---- pages that belong to a space ----

  predicate UserSlot(w: nat) {
    1 <= Index(w, 3) <= 255
  }

  /** Page f is mapped as the space's own where home says. */
  ghost predicate AtHome(mem: Memory, root: nat, f: nat, w: nat) {
    UserSlot(w)
    && match Lookup(mem, root, 3, w)
       case None => false
       case Some(Leaf(e, l)) => l == 0 && e.frame == f && OWNED in e.flags
  }

  /** An own leaf at w is a page that has its home there. */
  ghost predicate OwnLeafOk(mem: Memory, root: nat, home: map<nat, nat>, w: nat) {
    match Lookup(mem, root, 3, w)
    case None => true
    case Some(Leaf(e, l)) => OWNED in e.flags ==> l == 0 && e.frame in home && SamePage(home[e.frame], w, 0)
  }

  /** Each page of the space is mapped in one place, and nothing else is marked as its own. */
  ghost predicate OwnedOk(mem: Memory, root: nat, home: map<nat, nat>) {
    && (forall f | f in home :: AtHome(mem, root, f, home[f]))
    && (forall w: nat {:trigger Ask(root, w)} :: Ask(root, w) && UserSlot(w) ==> OwnLeafOk(mem, root, home, w))
  }

  /** A walk depends only on the path. */
  lemma {:induction false} LookupPath(mem: Memory, t: nat, l: nat, w: nat, v: nat)
    requires l < 4 && Path(w) == Path(v)
    ensures Lookup(mem, t, l, w) == Lookup(mem, t, l, v)
    decreases l
  {
    PathAt(w, l);
    PathAt(v, l);
    if l > 0 && t in mem && |mem[t]| == 512 {
      LookupPath(mem, mem[t][Index(w, l)].frame, l - 1, w, v);
    }
  }

  lemma SamePath(va: nat, w: nat)
    ensures SamePage(va, w, 0) <==> Path(w) == Path(va)
  {
    assert Path(w)[..4] == Path(w) && Path(va)[..4] == Path(va);
  }

  lemma OwnedSame(mem: Memory, mem': Memory, at: map<nat, Place>, root: nat, home: map<nat, nat>)
    requires OwnedOk(mem, root, home) && SameWalks(at, mem, mem') && IsRoot(at, root)
    ensures OwnedOk(mem', root, home)
  {
    forall f | f in home ensures AtHome(mem', root, f, home[f]) {
      assert Ask(root, home[f]);
    }
  }

  /** A new page of the space at va. */
  lemma OwnedMore(mem: Memory, mem': Memory, at: map<nat, Place>, kernel: nat, root: nat, home: map<nat, nat>, va: nat,
                  f: nat, e: Pte)
    requires OwnedOk(mem, root, home) && IsRoot(at, root) && f !in home && UserSlot(va)
    requires Lookup(mem, root, 3, va) == None
    requires OnlyPage(mem, mem', at, kernel, root, va, 0) && PageHolds(mem', root, va, 0, Some(Leaf(e, 0)))
    requires e.frame == f && OWNED in e.flags
    ensures OwnedOk(mem', root, home[f := va])
  {
    var home' := home[f := va];
    assert Ask(root, va) && SamePage(va, va, 0);
    forall g | g in home ensures AtHome(mem', root, g, home'[g]) {
      var w := home[g];
      assert Ask(root, w);
      SamePath(va, w);
      if Path(w) == Path(va) {
        LookupPath(mem, root, 3, w, va);
      }
    }
    forall w: nat | Ask(root, w) && UserSlot(w) ensures OwnLeafOk(mem', root, home', w) {
      assert OwnLeafOk(mem, root, home, w);
    }
  }

  /** Own leaves at different spots are different pages, and have their home there. */
  lemma OwnSpot(mem: Memory, at: map<nat, Place>, kernel: nat, root: nat, home: map<nat, nat>, x: Spot)
    requires mem.Keys == at.Keys && Tree(mem, at, kernel) && IsRoot(at, root) && OwnedOk(mem, root, home)
    requires SlotLeaf(mem, at, root, 1, 256, x) && OWNED in mem[x.t][x.i].flags
    ensures |at[x.t].path| == 3 && mem[x.t][x.i].frame in home
    ensures Path(home[mem[x.t][x.i].frame]) == at[x.t].path + [x.i]
  {
    var w := SpotWalk(mem, at, kernel, root, x);
    assert Path(w)[0] == at[x.t].path[0] by {
      assert Path(w)[..|at[x.t].path| + 1][0] == (at[x.t].path + [x.i])[0];
    }
    PathAt(w, 3);
    assert Ask(root, w) && OwnLeafOk(mem, root, home, w);
    SamePath(home[mem[x.t][x.i].frame], w);
    assert Path(w)[..4] == Path(w);
  }

  /** Every page of the space shows up among the leaves. */
  lemma HomeSpot(mem: Memory, at: map<nat, Place>, kernel: nat, root: nat, home: map<nat, nat>, f: nat)
    returns (x: Spot)
    requires mem.Keys == at.Keys && Tree(mem, at, kernel) && IsRoot(at, root) && root != kernel
    requires OwnedOk(mem, root, home) && f in home
    ensures SlotLeaf(mem, at, root, 1, 256, x) && |at[x.t].path| == 3 && mem[x.t][x.i].frame == f
    ensures OWNED in mem[x.t][x.i].flags
  {
    var w := home[f];
    assert AtHome(mem, root, f, w);
    WalkSpot(mem, root, 3, w);
    OpenTree(mem, at, kernel);
    RootDescend(mem, at, kernel, root, w, 0);
    var t := Descend(mem, root, 3, w, 0).value;
    x := Spot(t, Index(w, 0));
    PathAt(w, 3);
    assert at[t].path[0] == Path(w)[0];
  }
}
