/** Four-level x86-64 page tables as a memory of tables, the walk through them, and the invariant
    that makes them trees.  Addresses of tables and pages are frame numbers (4 KiB units). */
module PageTree {
  import opened Common

  // Bit numbers of a page-table entry.
  const P: nat := 0
  const W: nat := 1
  const U: nat := 2
  const PS: nat := 7
  const OWNED: nat := 9
  const NX: nat := 63
  const LEAF_FLAGS: set<nat> := {1, 2, 3, 4, 8, 9, 63}

  /** An entry: the frame in its address field and the numbers of the flag bits set around it. */
  datatype Pte = Pte(frame: nat, flags: set<nat>)

  const ZERO := Pte(0, {})

  type Memory = map<nat, seq<Pte>>

  /** Where a table hangs: the root of its address space, the entries that lead to it, and the table
      that holds the last of them. */
  datatype Place = Place(root: nat, path: seq<nat>, up: nat)

  ghost predicate SamePlace(v: Place, w: Place) {
    v.root == w.root && v.path == w.path
  }

  /** What one entry of a table at `level` spans (3 is the root level, 0 holds 4 KiB leaves). */
  function Span(level: nat): (s: nat)
    requires level < 4
    ensures s > 0
  {
    if level == 0 then 0x1000 else if level == 1 then 0x20_0000 else if level == 2 then 0x4000_0000 else 0x80_0000_0000
  }

  function Index(va: nat, level: nat): (i: nat)
    requires level < 4
    ensures i < 512
  {
    (va / Span(level)) % 512
  }

  function Path(va: nat): (p: seq<nat>)
    ensures |p| == 4
  {
    [Index(va, 3), Index(va, 2), Index(va, 1), Index(va, 0)]
  }

  lemma PathAt(va: nat, level: nat)
    requires level < 4
    ensures Path(va)[3 - level] == Index(va, level)
    ensures Path(va)[..3 - level] + [Index(va, level)] == Path(va)[..4 - level]
  {
  }

  predicate Canonical(va: nat) {
    va < 0x8000_0000_0000 || 0xFFFF_8000_0000_0000 <= va < 0x1_0000_0000_0000_0000
  }

  predicate Present(e: Pte) {
    P in e.flags
  }

  predicate IsLeaf(e: Pte, level: nat) {
    level == 0 || (PS in e.flags && (level == 1 || level == 2))
  }

  /** A leaf entry and the level it was found on. */
  datatype Leaf = Leaf(entry: Pte, level: nat)

  /** The walk from table t. */
  function Lookup(mem: Memory, t: nat, level: nat, va: nat): Option<Leaf>
    requires level < 4
    decreases level
  {
    if t !in mem || |mem[t]| != 512 then None else
      var e := mem[t][Index(va, level)];
      if !Present(e) then None
      else if IsLeaf(e, level) then Some(Leaf(e, level))
      else if level == 0 then None
      else Lookup(mem, e.frame, level - 1, va)
  }

  /** Slots 1 to 255 of a task's root are its own; the others hang on the kernel's tables. */
  function Owner(kernel: nat, root: nat, slot: nat): nat {
    if root == kernel || 1 <= slot <= 255 then root else kernel
  }

  /** Where the child behind entry i of table t at place w belongs. */
  function Below(kernel: nat, w: Place, t: nat, i: nat): Place {
    if w.path == [] then Place(Owner(kernel, t, i), [i], Owner(kernel, t, i)) else Place(w.root, w.path + [i], t)
  }

  ghost predicate EntryOk(mem: Memory, at: map<nat, Place>, kernel: nat, t: nat, i: nat)
    requires t in mem && t in at && i < |mem[t]| && |at[t].path| <= 3
  {
    var e, level := mem[t][i], 3 - |at[t].path|;
    && (level == 3 ==> PS !in e.flags)
    && (Present(e) && !IsLeaf(e, level) ==>
          e.frame in mem && e.frame in at && at[e.frame] == Below(kernel, at[t], t, i))
  }

  ghost predicate TableOk(mem: Memory, at: map<nat, Place>, kernel: nat, t: nat)
    requires t in mem && t in at
  {
    && |mem[t]| == 512 && |at[t].path| <= 3 && (at[t].path == [] ==> at[t].root == t)
    && forall i | 0 <= i < 512 :: EntryOk(mem, at, kernel, t, i)
  }

  /** Below a root every table is referred to from where it hangs. */
  ghost predicate Attached(mem: Memory, at: map<nat, Place>, t: nat)
    requires t in at
  {
    var w := at[t];
    |w.path| in {1, 2, 3} ==>
      && w.up in mem && w.up in at && at[w.up].root == w.root && at[w.up].path == w.path[..|w.path| - 1]
      && w.path[|w.path| - 1] < |mem[w.up]|
      && var e := mem[w.up][w.path[|w.path| - 1]]; Present(e) && !IsLeaf(e, 4 - |w.path|) && e.frame == t
  }

  /** Every table hangs in one place, and no two in the same. */
  ghost predicate TreeOk(mem: Memory, at: map<nat, Place>, kernel: nat) {
    && mem.Keys == at.Keys && IsRoot(at, kernel)
    && (forall t | t in mem :: TableOk(mem, at, kernel, t) && Attached(mem, at, t))
    && (forall s, t | s in at && t in at && SamePlace(at[s], at[t]) :: s == t)
  }

  ghost predicate TreeKey(k: nat, mem: Memory, at: map<nat, Place>, kernel: nat) {
    true
  }

  /** TreeOk behind a key, so that the verifier unfolds it only where OpenTree asks for it. */
  ghost predicate Tree(mem: Memory, at: map<nat, Place>, kernel: nat) {
    forall k {:trigger TreeKey(k, mem, at, kernel)} :: TreeKey(k, mem, at, kernel) ==> TreeOk(mem, at, kernel)
  }

  lemma OpenTree(mem: Memory, at: map<nat, Place>, kernel: nat)
    requires Tree(mem, at, kernel)
    ensures TreeOk(mem, at, kernel)
  {
    assert TreeKey(0, mem, at, kernel);
  }

  lemma CloseTree(mem: Memory, at: map<nat, Place>, kernel: nat)
    requires mem.Keys == at.Keys && IsRoot(at, kernel)
    requires forall t | t in mem :: TableOk(mem, at, kernel, t) && Attached(mem, at, t)
    requires forall s, t | s in at && t in at && SamePlace(at[s], at[t]) :: s == t
    ensures Tree(mem, at, kernel)
  {
  }

  ghost predicate IsRoot(at: map<nat, Place>, r: nat) {
    r in at && at[r].root == r && at[r].path == []
  }

  /** A table on the walk for va. */
  ghost predicate OnWalk(at: map<nat, Place>, t: nat, level: nat, va: nat)
    requires level < 4
  {
    t in at && at[t].path == Path(va)[..3 - level]
  }

  lemma WalkNext(mem: Memory, at: map<nat, Place>, kernel: nat, t: nat, level: nat, va: nat)
    requires TreeOk(mem, at, kernel) && 0 < level < 4 && OnWalk(at, t, level, va)
    ensures |mem[t]| == 512
    ensures var e := mem[t][Index(va, level)];
            Present(e) && !IsLeaf(e, level) ==>
              e.frame in mem && OnWalk(at, e.frame, level - 1, va)
              && at[e.frame] == Below(kernel, at[t], t, Index(va, level))
  {
    assert TableOk(mem, at, kernel, t);
    assert EntryOk(mem, at, kernel, t, Index(va, level));
    PathAt(va, level);
  }

  /** The walk from t does not read entry i0 of table t0. */
  ghost predicate Misses(at: map<nat, Place>, t: nat, t0: nat, i0: nat, va: nat)
    requires t in at && t0 in at
  {
    at[t0].path != [] ==> !(at[t0].path + [i0] <= Path(va) && at[t].root == at[t0].root)
  }

  /** The memories agree except at entry i0 of t0, and on tables that only one of them has. */
  ghost predicate SameBut(mem: Memory, mem': Memory, t0: nat, i0: nat) {
    forall t | t in mem :: t in mem' && |mem'[t]| == |mem[t]| &&
      forall i | 0 <= i < |mem[t]| :: mem'[t][i] == mem[t][i] || (t == t0 && i == i0)
  }

  /** A walk below the root that misses the entry finds the same. */
  lemma {:induction false} LookupSame(mem: Memory, mem': Memory, at: map<nat, Place>, kernel: nat, t: nat, level: nat,
                                      va: nat, t0: nat, i0: nat)
    requires TreeOk(mem, at, kernel) && level < 3 && OnWalk(at, t, level, va) && t0 in at && SameBut(mem, mem', t0, i0)
    requires Misses(at, t, t0, i0, va)
    ensures Lookup(mem', t, level, va) == Lookup(mem, t, level, va)
    decreases level
  {
    assert TableOk(mem, at, kernel, t);
    var i := Index(va, level);
    PathAt(va, level);
    var e := mem[t][i];
    assert mem'[t][i] == e;
    if level > 0 && Present(e) && !IsLeaf(e, level) {
      WalkNext(mem, at, kernel, t, level, va);
      LookupSame(mem, mem', at, kernel, e.frame, level - 1, va, t0, i0);
    }
  }

  /** ... and so does one from a root. */
  lemma RootSame(mem: Memory, mem': Memory, at: map<nat, Place>, kernel: nat, r: nat, va: nat, t0: nat, i0: nat)
    requires TreeOk(mem, at, kernel) && IsRoot(at, r) && t0 in at && SameBut(mem, mem', t0, i0)
    requires r == t0 ==> Index(va, 3) != i0
    requires at[t0].path != [] ==> !(at[t0].path + [i0] <= Path(va) && Owner(kernel, r, Index(va, 3)) == at[t0].root)
    ensures Lookup(mem', r, 3, va) == Lookup(mem, r, 3, va)
  {
    var i := Index(va, 3);
    WalkNext(mem, at, kernel, r, 3, va);
    var e := mem[r][i];
    assert mem'[r][i] == e;
    assert EntryOk(mem, at, kernel, r, i);
    if Present(e) {
      LookupSame(mem, mem', at, kernel, e.frame, 2, va, t0, i0);
    }
  }

  // ---- descending to a level ----

  /** The table on `level` that the walk for va from t reaches. */
  function Descend(mem: Memory, t: nat, l: nat, va: nat, level: nat): Option<nat>
    requires level <= l < 4
    decreases l
  {
    if l == level then Some(t)
    else if t !in mem || |mem[t]| != 512 then None else
      var e := mem[t][Index(va, l)];
      if !Present(e) || IsLeaf(e, l) then None else Descend(mem, e.frame, l - 1, va, level)
  }

  lemma {:induction false} DescendLookup(mem: Memory, t: nat, l: nat, va: nat, level: nat)
    requires level <= l < 4 && Descend(mem, t, l, va, level).Some?
    ensures Lookup(mem, t, l, va) == Lookup(mem, Descend(mem, t, l, va, level).value, level, va)
    decreases l
  {
    if l > level {
      DescendLookup(mem, mem[t][Index(va, l)].frame, l - 1, va, level);
    }
  }

  /** Only the leading part of the path matters. */
  lemma {:induction false} DescendPrefix(mem: Memory, t: nat, l: nat, va: nat, va': nat, level: nat)
    requires level <= l < 4 && Path(va)[..3 - level] == Path(va')[..3 - level]
    ensures Descend(mem, t, l, va, level) == Descend(mem, t, l, va', level)
    decreases l
  {
    if l > level {
      assert Path(va)[3 - l] == Path(va)[..3 - level][3 - l] == Path(va')[3 - l];
      PathAt(va, l);
      PathAt(va', l);
      if t in mem && |mem[t]| == 512 {
        DescendPrefix(mem, mem[t][Index(va, l)].frame, l - 1, va, va', level);
      }
    }
  }

  /** The place of the table reached. */
  lemma {:induction false} DescendPlace(mem: Memory, at: map<nat, Place>, kernel: nat, t: nat, l: nat, va: nat,
                                        level: nat)
    requires TreeOk(mem, at, kernel) && level <= l < 3 && OnWalk(at, t, l, va) && Descend(mem, t, l, va, level).Some?
    ensures var s := Descend(mem, t, l, va, level).value;
            s in at && at[s].root == at[t].root && at[s].path == Path(va)[..3 - level]
    decreases l
  {
    if l > level {
      WalkNext(mem, at, kernel, t, l, va);
      DescendPlace(mem, at, kernel, mem[t][Index(va, l)].frame, l - 1, va, level);
    }
  }

  /** From a root: the table reached hangs on the owner of the slot. */
  lemma RootDescend(mem: Memory, at: map<nat, Place>, kernel: nat, r: nat, va: nat, level: nat)
    requires TreeOk(mem, at, kernel) && level < 3 && IsRoot(at, r) && Descend(mem, r, 3, va, level).Some?
    ensures var s := Descend(mem, r, 3, va, level).value;
            s in at && at[s].root == Owner(kernel, r, Index(va, 3)) && at[s].path == Path(va)[..3 - level]
  {
    WalkNext(mem, at, kernel, r, 3, va);
    DescendPlace(mem, at, kernel, mem[r][Index(va, 3)].frame, 2, va, level);
  }

  // ---- addresses ----

  lemma SpanUp(va: nat, level: nat)
    requires level < 3
    ensures va / Span(level + 1) == va / Span(level) / 512
  {
  }

  lemma TopIndex(va: nat, va': nat)
    requires Canonical(va) && Canonical(va')
    ensures Index(va, 3) == Index(va', 3) <==> va / Span(3) == va' / Span(3)
  {
  }

  /** Canonical addresses have a common path down to a level exactly when they share the entry's span. */
  lemma {:induction false} PathSpan(va: nat, va': nat, level: nat)
    requires Canonical(va) && Canonical(va') && level < 4
    ensures Path(va)[..4 - level] == Path(va')[..4 - level] <==> va / Span(level) == va' / Span(level)
    decreases 3 - level
  {
    PathAt(va, level);
    PathAt(va', level);
    if level == 3 {
      TopIndex(va, va');
      assert Path(va)[..1] == [Index(va, 3)] && Path(va')[..1] == [Index(va', 3)];
    } else {
      PathSpan(va, va', level + 1);
      SpanUp(va, level);
      SpanUp(va', level);
      PathAt(va, level + 1);
      PathAt(va', level + 1);
      var p, q := Path(va), Path(va');
      assert p[..4 - level][..3 - level] == p[..3 - level] && q[..4 - level][..3 - level] == q[..3 - level];
      assert p[..4 - level][3 - level] == Index(va, level) && q[..4 - level][3 - level] == Index(va', level);
    }
  }
}
