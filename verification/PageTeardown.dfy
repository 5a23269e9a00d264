/** The tables and leaves below a table, and what is left when they are removed. */
module PageTeardown {
  import opened Common
  import opened PageTree
  import opened PageUpdate

  /** s hangs at or below path p of root. */
  ghost predicate Under(at: map<nat, Place>, root: nat, p: seq<nat>, s: nat) {
    s in at && at[s].root == root && p <= at[s].path
  }

  ghost function Subtree(at: map<nat, Place>, root: nat, p: seq<nat>): set<nat> {
    set s | s in at && Under(at, root, p, s)
  }

  /** Those behind the first j entries of the table at p. */
  ghost predicate Behind(at: map<nat, Place>, root: nat, p: seq<nat>, j: nat, s: nat) {
    Under(at, root, p, s) && |at[s].path| > |p| && at[s].path[|p|] < j
  }

  ghost function BehindSet(at: map<nat, Place>, root: nat, p: seq<nat>, j: nat): set<nat> {
    set s | s in at && Behind(at, root, p, j, s)
  }

  /** A table below path p means a table at p: every reference chain is complete. */
  lemma {:induction false} Ancestor(mem: Memory, at: map<nat, Place>, kernel: nat, root: nat, p: seq<nat>, s: nat)
    returns (u: nat)
    requires TreeOk(mem, at, kernel) && Under(at, root, p, s) && |p| >= 1
    ensures u in at && at[u].root == root && at[u].path == p
    decreases |at[s].path|
  {
    if |at[s].path| == |p| {
      u := s;
    } else {
      assert TableOk(mem, at, kernel, s) && Attached(mem, at, s);
      assert p <= at[s].path[..|at[s].path| - 1];
      u := Ancestor(mem, at, kernel, root, p, at[s].up);
    }
  }

  /** A table behind an entry means that the entry refers to one. */
  lemma SomeBehind(mem: Memory, at: map<nat, Place>, kernel: nat, t: nat, j: nat, s: nat)
    requires TreeOk(mem, at, kernel) && t in mem && j < 512 && |mem[t]| == 512 && |at[t].path| <= 3
    requires Under(at, at[t].root, at[t].path + [j], s)
    ensures Refers(mem[t][j], LevelOf(at[t]))
  {
    var u := Ancestor(mem, at, kernel, at[t].root, at[t].path + [j], s);
    assert TableOk(mem, at, kernel, u) && Attached(mem, at, u);
    var q := at[u].path;
    assert q[..|q| - 1] == at[t].path && q[|q| - 1] == j;
    assert SamePlace(at[at[u].up], at[t]);
  }

  lemma PrefixStep(p: seq<nat>, q: seq<nat>, j: nat)
    ensures p + [j] <= q <==> p <= q && |q| > |p| && q[|p|] == j
  {
    if p <= q && |q| > |p| && q[|p|] == j {
      assert q[..|p| + 1] == p + [j];
    }
  }

  /** One entry more. */
  lemma BehindNext(mem: Memory, at: map<nat, Place>, kernel: nat, t: nat, j: nat)
    requires mem.Keys == at.Keys && Tree(mem, at, kernel) && t in mem && j < 512 && |mem[t]| == 512 && |at[t].path| <= 3
    ensures var p, root := at[t].path, at[t].root;
            && BehindSet(at, root, p, j) !! Subtree(at, root, p + [j])
            && BehindSet(at, root, p, j + 1) == BehindSet(at, root, p, j) + Subtree(at, root, p + [j])
            && (!Refers(mem[t][j], LevelOf(at[t])) ==> Subtree(at, root, p + [j]) == {})
  {
    OpenTree(mem, at, kernel);
    var p, root := at[t].path, at[t].root;
    forall s | s in at
      ensures Behind(at, root, p, j + 1, s) <==> Behind(at, root, p, j, s) || Under(at, root, p + [j], s)
      ensures !(Behind(at, root, p, j, s) && Under(at, root, p + [j], s))
    {
      PrefixStep(p, at[s].path, j);
    }
    if Subtree(at, root, p + [j]) != {} {
      var s :| s in Subtree(at, root, p + [j]);
      SomeBehind(mem, at, kernel, t, j, s);
    }
  }

  /** The table behind an entry. */
  lemma ChildAt(mem: Memory, at: map<nat, Place>, kernel: nat, t: nat, j: nat)
    requires mem.Keys == at.Keys && Tree(mem, at, kernel) && t in mem && j < 512
    ensures |mem[t]| == 512 && |at[t].path| <= 3
    ensures at[t].path != [] && Refers(mem[t][j], LevelOf(at[t])) ==>
              var c := mem[t][j].frame;
              c in mem && at[c].root == at[t].root && at[c].path == at[t].path + [j] && |at[t].path| < 3
  {
    OpenTree(mem, at, kernel);
    assert TableOk(mem, at, kernel, t) && EntryOk(mem, at, kernel, t, j);
  }

  /** Behind all entries and the table itself: the whole subtree. */
  lemma BehindAll(mem: Memory, at: map<nat, Place>, kernel: nat, t: nat)
    requires mem.Keys == at.Keys && Tree(mem, at, kernel) && t in mem
    ensures var p, root := at[t].path, at[t].root;
            t !in BehindSet(at, root, p, 512) && Subtree(at, root, p) == BehindSet(at, root, p, 512) + {t}
  {
    OpenTree(mem, at, kernel);
    var p, root := at[t].path, at[t].root;
    forall s | s in at && Under(at, root, p, s) ensures s == t || Behind(at, root, p, 512, s) {
      if |at[s].path| == |p| {
        assert SamePlace(at[s], at[t]);
      } else {
        var q := at[s].path[..|p| + 1];
        assert p <= q && q <= at[s].path;
        var u := Ancestor(mem, at, kernel, root, q, s);
        PathBound(mem, at, kernel, u);
        assert at[s].path[|p|] == q[|p|];
      }
    }
  }

  lemma BehindSub(at: map<nat, Place>, root: nat, p: seq<nat>, j: nat)
    ensures BehindSet(at, root, p, j) <= Subtree(at, root, p) && Subtree(at, root, p + [j]) <= Subtree(at, root, p)
  {
    forall s | s in Subtree(at, root, p + [j]) ensures s in Subtree(at, root, p) {
      PrefixStep(p, at[s].path, j);
    }
  }

  /** Path elements are entry numbers. */
  lemma PathBound(mem: Memory, at: map<nat, Place>, kernel: nat, u: nat)
    requires TreeOk(mem, at, kernel) && u in at && |at[u].path| >= 1
    ensures at[u].path[|at[u].path| - 1] < 512
  {
    assert TableOk(mem, at, kernel, u) && Attached(mem, at, u);
    assert TableOk(mem, at, kernel, at[u].up);
  }

  // ---- leaves ----

  /** Entry i of table t. */
  datatype Spot = Spot(t: nat, i: nat)

  /** A leaf at or below path p of root. */
  ghost predicate LeafSpot(mem: Memory, at: map<nat, Place>, root: nat, p: seq<nat>, x: Spot) {
    && Under(at, root, p, x.t) && x.t in mem && x.i < |mem[x.t]| && |at[x.t].path| <= 3
    && Present(mem[x.t][x.i]) && IsLeaf(mem[x.t][x.i], LevelOf(at[x.t]))
  }

  /** ... among the first j entries of the table t at p, or behind them. */
  ghost predicate SeenLeaf(mem: Memory, at: map<nat, Place>, root: nat, p: seq<nat>, t: nat, j: nat, x: Spot) {
    LeafSpot(mem, at, root, p, x) && (if x.t == t then x.i < j else Behind(at, root, p, j, x.t))
  }

  /** Each leaf of the subtree exactly once. */
  ghost predicate AllLeaves(mem: Memory, at: map<nat, Place>, root: nat, p: seq<nat>, xs: seq<Spot>) {
    Distinct(xs) && forall x :: x in xs <==> LeafSpot(mem, at, root, p, x)
  }

  ghost predicate SeenLeaves(mem: Memory, at: map<nat, Place>, root: nat, p: seq<nat>, t: nat, j: nat, xs: seq<Spot>) {
    Distinct(xs) && forall x :: x in xs <==> SeenLeaf(mem, at, root, p, t, j, x)
  }

  lemma SeenNext(mem: Memory, at: map<nat, Place>, kernel: nat, t: nat, j: nat, x: Spot)
    requires TreeOk(mem, at, kernel) && t in mem && j < 512 && |mem[t]| == 512 && |at[t].path| <= 3
    ensures var p, root := at[t].path, at[t].root;
            && (SeenLeaf(mem, at, root, p, t, j + 1, x) <==>
                  || SeenLeaf(mem, at, root, p, t, j, x) || LeafSpot(mem, at, root, p + [j], x)
                  || (x == Spot(t, j) && Present(mem[t][j]) && IsLeaf(mem[t][j], LevelOf(at[t]))))
            && !(SeenLeaf(mem, at, root, p, t, j, x) && (LeafSpot(mem, at, root, p + [j], x) || x == Spot(t, j)))
            && (LeafSpot(mem, at, root, p + [j], x) ==> Refers(mem[t][j], LevelOf(at[t])))
  {
    var p, root := at[t].path, at[t].root;
    if x.t in at {
      PrefixStep(p, at[x.t].path, j);
      if Under(at, root, p + [j], x.t) {
        SomeBehind(mem, at, kernel, t, j, x.t);
      }
    }
  }

  lemma DistinctJoin(xs: seq<Spot>, ys: seq<Spot>)
    requires Distinct(xs) && Distinct(ys) && forall x :: !(x in xs && x in ys)
    ensures Distinct(xs + ys)
  {
    forall i, j | 0 <= i < j < |xs + ys| ensures (xs + ys)[i] != (xs + ys)[j] {
      if i < |xs| <= j {
        assert (xs + ys)[i] in xs && (xs + ys)[j] in ys;
      }
    }
  }

  /** The leaves behind one more entry join the list. */
  lemma SeenJoin(mem: Memory, at: map<nat, Place>, kernel: nat, t: nat, j: nat, xs: seq<Spot>, ys: seq<Spot>)
    requires mem.Keys == at.Keys && Tree(mem, at, kernel) && t in mem && j < 512 && |mem[t]| == 512 && |at[t].path| <= 3
    requires SeenLeaves(mem, at, at[t].root, at[t].path, t, j, xs)
    requires var e := mem[t][j];
             if !Present(e) then ys == []
             else if IsLeaf(e, LevelOf(at[t])) then ys == [Spot(t, j)]
             else AllLeaves(mem, at, at[t].root, at[t].path + [j], ys)
    ensures SeenLeaves(mem, at, at[t].root, at[t].path, t, j + 1, xs + ys)
  {
    OpenTree(mem, at, kernel);
    var p, root := at[t].path, at[t].root;
    forall x ensures x in xs + ys <==> SeenLeaf(mem, at, root, p, t, j + 1, x)
      ensures !(x in xs && x in ys)
    {
      SeenNext(mem, at, kernel, t, j, x);
    }
    DistinctJoin(xs, ys);
  }

  lemma SeenAll(mem: Memory, at: map<nat, Place>, kernel: nat, t: nat, xs: seq<Spot>)
    requires mem.Keys == at.Keys && Tree(mem, at, kernel) && t in mem
    requires SeenLeaves(mem, at, at[t].root, at[t].path, t, 512, xs)
    ensures AllLeaves(mem, at, at[t].root, at[t].path, xs)
  {
    OpenTree(mem, at, kernel);
    BehindAll(mem, at, kernel, t);
    forall x ensures x in xs <==> LeafSpot(mem, at, at[t].root, at[t].path, x) {
      if LeafSpot(mem, at, at[t].root, at[t].path, x) {
        assert TableOk(mem, at, kernel, x.t);
        assert x.t in Subtree(at, at[t].root, at[t].path);
      }
    }
  }

  // ---- what is left ----

  function Without(mem: Memory, gone: set<nat>): (m: Memory)
    ensures m.Keys == mem.Keys - gone && forall t | t in m :: m[t] == mem[t]
  {
    map t | t in mem && t !in gone :: mem[t]
  }

  /** Slot i of a task's root cleared, and the tables behind it gone. */
  ghost predicate SlotGone(mem: Memory, mem': Memory, at: map<nat, Place>, at': map<nat, Place>, kernel: nat, root: nat,
                           i: nat) {
    && IsRoot(at, root) && root != kernel && 1 <= i <= 255 && root in mem && |mem[root]| == 512
    && mem' == Without(Put(mem, root, i, ZERO), Subtree(at, root, [i]))
    && at' == at - Subtree(at, root, [i])
  }

  lemma ChildStays(mem: Memory, at: map<nat, Place>, kernel: nat, root: nat, i: nat, s: nat, j: nat)
    requires TreeOk(mem, at, kernel) && IsRoot(at, root) && root != kernel && 1 <= i <= 255
    requires s in mem && s !in Subtree(at, root, [i]) && j < 512 && |mem[s]| == 512 && |at[s].path| <= 3
    requires !(s == root && i == j)
    requires Refers(mem[s][j], LevelOf(at[s]))
    ensures mem[s][j].frame in mem && mem[s][j].frame !in Subtree(at, root, [i])
  {
    assert TableOk(mem, at, kernel, s) && EntryOk(mem, at, kernel, s, j);
    var c := mem[s][j].frame;
    if at[s].path != [] {
      assert at[c].path[0] == at[s].path[0];
    }
  }

  lemma SlotTable(mem: Memory, mem': Memory, at: map<nat, Place>, at': map<nat, Place>, kernel: nat, root: nat, i: nat,
                  s: nat)
    requires TreeOk(mem, at, kernel) && SlotGone(mem, mem', at, at', kernel, root, i) && s in mem'
    ensures s in at' && TableOk(mem', at', kernel, s) && Attached(mem', at', s)
  {
    assert TableOk(mem, at, kernel, s) && Attached(mem, at, s);
    forall j | 0 <= j < 512 ensures EntryOk(mem', at', kernel, s, j) {
      assert EntryOk(mem, at, kernel, s, j);
      if !(s == root && i == j) && Refers(mem[s][j], LevelOf(at[s])) {
        ChildStays(mem, at, kernel, root, i, s, j);
      }
    }
    var w := at[s];
    if |w.path| >= 1 {
      assert |w.path| > 1 ==> w.path[..|w.path| - 1][0] == w.path[0];
    }
  }

  lemma SlotTree(mem: Memory, mem': Memory, at: map<nat, Place>, at': map<nat, Place>, kernel: nat, root: nat, i: nat)
    requires mem.Keys == at.Keys && Tree(mem, at, kernel) && SlotGone(mem, mem', at, at', kernel, root, i)
    ensures Tree(mem', at', kernel)
  {
    OpenTree(mem, at, kernel);
    forall s | s in mem' ensures TableOk(mem', at', kernel, s) && Attached(mem', at', s) {
      SlotTable(mem, mem', at, at', kernel, root, i, s);
    }
    CloseTree(mem', at', kernel);
  }

  /** Walks that do not go behind the slot find what they found. */
  lemma {:induction false} SlotBelow(mem: Memory, mem': Memory, at: map<nat, Place>, at': map<nat, Place>, kernel: nat,
                                     root: nat, i: nat, t: nat, level: nat, w: nat)
    requires TreeOk(mem, at, kernel) && SlotGone(mem, mem', at, at', kernel, root, i)
    requires level < 3 && OnWalk(at, t, level, w) && t !in Subtree(at, root, [i])
    ensures Lookup(mem', t, level, w) == Lookup(mem, t, level, w)
    decreases level
  {
    assert TableOk(mem, at, kernel, t);
    var j := Index(w, level);
    assert at[t].path != [];
    if level > 0 && Refers(mem[t][j], level) {
      WalkNext(mem, at, kernel, t, level, w);
      ChildStays(mem, at, kernel, root, i, t, j);
      SlotBelow(mem, mem', at, at', kernel, root, i, mem[t][j].frame, level - 1, w);
    }
  }

  /** After the slot is gone: nothing there, everything else as before. */
  lemma SlotWalk(mem: Memory, mem': Memory, at: map<nat, Place>, at': map<nat, Place>, kernel: nat, root: nat, i: nat,
                 r: nat, w: nat)
    requires mem.Keys == at.Keys && Tree(mem, at, kernel) && SlotGone(mem, mem', at, at', kernel, root, i)
    requires IsRoot(at, r)
    ensures Lookup(mem', r, 3, w) == if r == root && Index(w, 3) == i then None else Lookup(mem, r, 3, w)
  {
    OpenTree(mem, at, kernel);
    assert TableOk(mem, at, kernel, r);
    var j := Index(w, 3);
    assert EntryOk(mem, at, kernel, r, j);
    if !(r == root && j == i) && Present(mem[r][j]) {
      WalkNext(mem, at, kernel, r, 3, w);
      ChildStays(mem, at, kernel, root, i, r, j);
      SlotBelow(mem, mem', at, at', kernel, root, i, mem[r][j].frame, 2, w);
    }
  }
}
