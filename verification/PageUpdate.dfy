/** How single changes of page-table memory change what walks find. */
module PageUpdate {
  import opened Common
  import opened PageTree

  function Put(mem: Memory, t: nat, i: nat, e: Pte): (m: Memory)
    requires t in mem && i < |mem[t]|
    ensures SameBut(mem, m, t, i) && m.Keys == mem.Keys && |m[t]| == |mem[t]| && m[t][i] == e
  {
    mem[t := mem[t][i := e]]
  }

  /** Entry e of a table on `level` refers to a table below. */
  predicate Refers(e: Pte, level: nat) {
    Present(e) && !IsLeaf(e, level)
  }

  function LevelOf(w: Place): nat
    requires |w.path| <= 3
  {
    3 - |w.path|
  }

  /** An entry may change its flags while it goes on referring to the same table, or change between
      values that refer to none. */
  lemma PutTree(mem: Memory, at: map<nat, Place>, kernel: nat, t: nat, i: nat, e: Pte)
    requires TreeOk(mem, at, kernel) && t in mem && i < 512 && |mem[t]| == 512 && |at[t].path| <= 3
    requires var l := LevelOf(at[t]);
             && (l == 3 ==> PS !in e.flags)
             && (if Refers(mem[t][i], l) then Refers(e, l) && e.frame == mem[t][i].frame else !Refers(e, l))
    ensures Tree(Put(mem, t, i, e), at, kernel)
  {
    var mem' := Put(mem, t, i, e);
    forall s | s in mem' ensures TableOk(mem', at, kernel, s) && Attached(mem', at, s) {
      assert TableOk(mem, at, kernel, s) && Attached(mem, at, s);
      forall j | 0 <= j < 512 ensures EntryOk(mem', at, kernel, s, j) {
        assert EntryOk(mem, at, kernel, s, j);
      }
    }
    CloseTree(mem', at, kernel);
  }

  /** Changing only the flags of a reference changes no walk. */
  lemma {:induction false} ReferenceSame(mem: Memory, mem': Memory, at: map<nat, Place>, kernel: nat, t: nat,
                                         level: nat, va: nat, t0: nat, i0: nat)
    requires TreeOk(mem, at, kernel) && level < 4 && OnWalk(at, t, level, va) && SameBut(mem, mem', t0, i0)
    requires t0 in mem && t0 in at && |at[t0].path| <= 3 && i0 < |mem[t0]| && i0 < |mem'[t0]|
    requires var l := LevelOf(at[t0]);
             Refers(mem[t0][i0], l) && Refers(mem'[t0][i0], l) && mem'[t0][i0].frame == mem[t0][i0].frame
    ensures Lookup(mem', t, level, va) == Lookup(mem, t, level, va)
    decreases level
  {
    assert TableOk(mem, at, kernel, t);
    var e := mem[t][Index(va, level)];
    if level > 0 {
      WalkNext(mem, at, kernel, t, level, va);
      if Refers(e, level) {
        ReferenceSame(mem, mem', at, kernel, e.frame, level - 1, va, t0, i0);
      }
    }
  }

  /** The new table hangs where nothing did. */
  lemma NothingThere(mem: Memory, at: map<nat, Place>, kernel: nat, t: nat, i: nat, s: nat)
    requires TreeOk(mem, at, kernel) && t in mem && i < 512 && |mem[t]| == 512 && |at[t].path| < 3
    requires !Refers(mem[t][i], LevelOf(at[t])) && (at[t].path == [] ==> Owner(kernel, t, i) == t) && s in mem
    ensures !SamePlace(at[s], Below(kernel, at[t], t, i))
  {
    if SamePlace(at[s], Below(kernel, at[t], t, i)) {
      assert TableOk(mem, at, kernel, t) && Attached(mem, at, s);
      assert at[s].path == at[t].path + [i];
      assert SamePlace(at[at[s].up], at[t]);
    }
  }

  function NewTable(): (t: seq<Pte>)
    ensures |t| == 512 && forall i | 0 <= i < 512 :: t[i] == ZERO
  {
    seq(512, i => ZERO)
  }

  /** A zeroed table p behind an entry that referred to none. */
  function Hang(mem: Memory, t: nat, i: nat, p: nat, flags: set<nat>): (m: Memory)
    requires t in mem && i < |mem[t]| && p !in mem
    ensures SameBut(mem, m, t, i) && p in m && m.Keys == mem.Keys + {p} && m[t][i] == Pte(p, flags)
    ensures |m[t]| == |mem[t]|
  {
    mem[p := NewTable()][t := mem[t][i := Pte(p, flags)]]
  }

  ghost predicate CanHang(mem: Memory, at: map<nat, Place>, kernel: nat, t: nat, i: nat, p: nat) {
    && TreeOk(mem, at, kernel) && t in mem && i < 512 && |mem[t]| == 512 && |at[t].path| < 3 && p !in mem
    && !Refers(mem[t][i], LevelOf(at[t])) && (at[t].path == [] ==> Owner(kernel, t, i) == t)
  }

  lemma HangOld(mem: Memory, at: map<nat, Place>, kernel: nat, t: nat, i: nat, p: nat, flags: set<nat>, s: nat)
    requires CanHang(mem, at, kernel, t, i, p) && P in flags && PS !in flags && s in mem
    ensures var mem', at' := Hang(mem, t, i, p, flags), at[p := Below(kernel, at[t], t, i)];
            TableOk(mem', at', kernel, s) && Attached(mem', at', s)
  {
    var mem', at' := Hang(mem, t, i, p, flags), at[p := Below(kernel, at[t], t, i)];
    assert TableOk(mem, at, kernel, s) && Attached(mem, at, s);
    forall j | 0 <= j < 512 ensures EntryOk(mem', at', kernel, s, j) {
      assert EntryOk(mem, at, kernel, s, j);
    }
  }

  lemma HangNew(mem: Memory, at: map<nat, Place>, kernel: nat, t: nat, i: nat, p: nat, flags: set<nat>)
    requires CanHang(mem, at, kernel, t, i, p) && P in flags && PS !in flags
    ensures var mem', at' := Hang(mem, t, i, p, flags), at[p := Below(kernel, at[t], t, i)];
            TableOk(mem', at', kernel, p) && Attached(mem', at', p)
  {
    assert TableOk(mem, at, kernel, t);
    var mem', at' := Hang(mem, t, i, p, flags), at[p := Below(kernel, at[t], t, i)];
    assert mem'[p] == NewTable();
    assert at'[p].path == at[t].path + [i];
  }

  lemma HangPlaces(mem: Memory, at: map<nat, Place>, kernel: nat, t: nat, i: nat, p: nat)
    requires CanHang(mem, at, kernel, t, i, p)
    ensures var at' := at[p := Below(kernel, at[t], t, i)];
            forall s, u | s in at' && u in at' && SamePlace(at'[s], at'[u]) :: s == u
  {
    forall s | s in mem ensures !SamePlace(at[s], Below(kernel, at[t], t, i)) {
      NothingThere(mem, at, kernel, t, i, s);
    }
  }

  lemma HangTree(mem: Memory, at: map<nat, Place>, kernel: nat, t: nat, i: nat, p: nat, flags: set<nat>)
    requires CanHang(mem, at, kernel, t, i, p) && P in flags && PS !in flags
    ensures Tree(Hang(mem, t, i, p, flags), at[p := Below(kernel, at[t], t, i)], kernel)
  {
    var mem', at' := Hang(mem, t, i, p, flags), at[p := Below(kernel, at[t], t, i)];
    HangNew(mem, at, kernel, t, i, p, flags);
    HangPlaces(mem, at, kernel, t, i, p);
    forall s | s in mem' ensures TableOk(mem', at', kernel, s) && Attached(mem', at', s) {
      if s != p {
        HangOld(mem, at, kernel, t, i, p, flags, s);
      }
    }
    CloseTree(mem', at', kernel);
  }

  // ---- what walks find afterwards ----

  /** Hanging a zeroed table changes no walk. */
  lemma HangSame(mem: Memory, at: map<nat, Place>, kernel: nat, t: nat, i: nat, p: nat, flags: set<nat>, r: nat,
                 va: nat)
    requires CanHang(mem, at, kernel, t, i, p) && P in flags && PS !in flags && IsRoot(at, r) && !Present(mem[t][i])
    ensures Lookup(Hang(mem, t, i, p, flags), r, 3, va) == Lookup(mem, r, 3, va)
  {
    HangBelow(mem, at, kernel, t, i, p, flags, r, 3, va);
  }

  lemma {:induction false} HangBelow(mem: Memory, at: map<nat, Place>, kernel: nat, t: nat, i: nat, p: nat,
                                     flags: set<nat>, s: nat, level: nat, va: nat)
    requires CanHang(mem, at, kernel, t, i, p) && P in flags && PS !in flags && !Present(mem[t][i])
    requires level < 4 && OnWalk(at, s, level, va)
    ensures Lookup(Hang(mem, t, i, p, flags), s, level, va) == Lookup(mem, s, level, va)
    decreases level
  {
    var mem' := Hang(mem, t, i, p, flags);
    assert TableOk(mem, at, kernel, s);
    var j := Index(va, level);
    if s == t && j == i {
      assert level == LevelOf(at[t]) && !IsLeaf(mem'[s][j], level);
      assert Lookup(mem', p, level - 1, va) == None;
    } else if level > 0 && Refers(mem[s][j], level) {
      WalkNext(mem, at, kernel, s, level, va);
      HangBelow(mem, at, kernel, t, i, p, flags, mem[s][j].frame, level - 1, va);
    }
  }
}
