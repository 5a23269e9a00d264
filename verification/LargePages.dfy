/** A page table that has become empty still stands in the way of a large page. */
module LargePages {
  import opened Common
  import opened PhysMem
  import opened PageTree
  import opened PageUpdate
  import opened PageTables

  /** Where the way is open nothing is translated, in the whole block. */
  lemma {:induction false} OpenNone(mem: Memory, t: nat, l: nat, va: nat, w: nat, level: nat)
    requires level <= l < 4 && WayTo(mem, t, l, va, level).Open? && SamePage(va, w, level)
    ensures Lookup(mem, t, l, w) == None
    decreases l
  {
    PathAt(va, l);
    PathAt(w, l);
    assert Path(w)[..4 - level][3 - l] == Path(va)[..4 - level][3 - l];
    if t in mem && |mem[t]| == 512 && Present(mem[t][Index(va, l)]) {
      OpenNone(mem, mem[t][Index(va, l)].frame, l - 1, va, w, level);
    }
  }

  ghost predicate AskBlock(w: nat) {
    true
  }

  /** Nothing in the block of va is translated (used by asking for an address). */
  ghost predicate Bare(mem: Memory, root: nat, va: nat) {
    forall w: nat {:trigger AskBlock(w)} :: AskBlock(w) && SamePage(va, w, 1) ==> Lookup(mem, root, 3, w) == None
  }

  lemma FreeIsBare(mem: Memory, at: map<nat, Place>, kernel: nat, root: nat, va: nat)
    requires mem.Keys == at.Keys && Tree(mem, at, kernel) && IsRoot(at, root) && !Taken(mem, root, va, 1)
    ensures Bare(mem, root, va)
  {
    RootReached(mem, at, kernel, root, va, 1);
    forall w: nat | AskBlock(w) && SamePage(va, w, 1) ensures Lookup(mem, root, 3, w) == None {
      OpenNone(mem, root, 3, va, w, 1);
    }
  }

  /** A small page put in and taken out again leaves the block bare. */
  lemma BareAgain(mem: Memory, mem1: Memory, mem2: Memory, at: map<nat, Place>, at1: map<nat, Place>, kernel: nat,
                  root: nat, va: nat)
    requires Bare(mem, root, va) && IsRoot(at, root) && IsRoot(at1, root)
    requires OnlyPage(mem, mem1, at, kernel, root, va, 0)
    requires OnlyPage(mem1, mem2, at1, kernel, root, va, 0) && PageHolds(mem2, root, va, 0, None)
    ensures Bare(mem2, root, va)
  {
    forall w: nat | AskBlock(w) && SamePage(va, w, 1) ensures Lookup(mem2, root, 3, w) == None {
      assert Ask(root, w) && Lookup(mem, root, 3, w) == None;
    }
  }

  lemma Found(mem: Memory, root: nat, va: nat, f: Leaf)
    requires PageHolds(mem, root, va, 0, Some(f))
    ensures Lookup(mem, root, 3, va) == Some(f)
  {
    assert Ask(root, va) && SamePage(va, va, 0);
  }

  /** A small page, mapped and unmapped again. */
  method MapUnmap(pt: Tables, root: nat, va: nat, pa: nat, flags: set<nat>) returns (small: PtStatus, gone: PtStatus)
    requires pt.Valid() && IsRoot(pt.at, root) && Reachable(pt.mem, pt.kernel, root, va) && Bare(pt.mem, root, va)
    requires MapArgs(va, pa, 0x1000, flags) == PtOk && MapOutcome(pt.mem, root, va, 0, |pt.pmm.Free()|) == PtOk
    modifies pt, pt.pmm, pt.pmm.used
    ensures pt.Valid() && IsRoot(pt.at, root) && Reachable(pt.mem, pt.kernel, root, va)
    ensures small == PtOk && gone == PtOk && Bare(pt.mem, root, va) && Taken(pt.mem, root, va, 1)
  {
    ghost var mem0, at0 := pt.mem, pt.at;
    small := pt.Map(root, va, pa, 0x1000, flags);
    ghost var mem1, at1 := pt.mem, pt.at;
    Found(mem1, root, va, Leaf(LeafFor(pa, 0x1000, flags), 0));
    assert AskTable(root) && Ask(root, va);
    gone := Remove(pt, root, va);
    BareAgain(mem0, mem1, pt.mem, at0, at1, pt.kernel, root, va);
  }

  /** A small page taken out: its table stays. */
  method Remove(pt: Tables, root: nat, va: nat) returns (st: PtStatus)
    requires pt.Valid() && IsRoot(pt.at, root) && Reachable(pt.mem, pt.kernel, root, va) && Canonical(va)
    requires Lookup(pt.mem, root, 3, va).Some? && Lookup(pt.mem, root, 3, va).value.level == 0
    modifies pt`mem
    ensures pt.Valid() && st == PtOk && Reachable(pt.mem, pt.kernel, root, va) && Taken(pt.mem, root, va, 1)
    ensures OnlyPage(old(pt.mem), pt.mem, pt.at, pt.kernel, root, va, 0) && PageHolds(pt.mem, root, va, 0, None)
  {
    var p, size;
    ghost var found;
    assert Ask(root, va);
    st, p, size, found := pt.Unmap(root, va);
  }

  /** A block that could take a large page cannot any more after a small page was mapped in it and unmapped,
      although nothing in it is translated. */
  method MapUnmapMap(pt: Tables, root: nat, va: nat, pa: nat, large: nat, flags: set<nat>)
    returns (small: PtStatus, gone: PtStatus, st: PtStatus)
    requires pt.Valid() && IsRoot(pt.at, root) && Reachable(pt.mem, pt.kernel, root, va)
    requires MapArgs(va, pa, 0x1000, flags) == PtOk && MapArgs(va, large, 0x20_0000, flags) == PtOk
    requires MapOutcome(pt.mem, root, va, 1, |pt.pmm.Free()|) == PtOk
    requires MapOutcome(pt.mem, root, va, 0, |pt.pmm.Free()|) == PtOk
    modifies pt, pt.pmm, pt.pmm.used
    ensures pt.Valid() && small == PtOk && gone == PtOk && st == EExists && Bare(pt.mem, root, va)
  {
    FreeIsBare(pt.mem, pt.at, pt.kernel, root, va);
    small, gone := MapUnmap(pt, root, va, pa, flags);
    ghost var mem2 := pt.mem;
    st := pt.Map(root, va, large, 0x20_0000, flags);
    forall w: nat | AskBlock(w) && SamePage(va, w, 1) ensures Lookup(pt.mem, root, 3, w) == None {
      assert Ask(root, w) && Lookup(mem2, root, 3, w) == None;
    }
  }

  function EmptyTable(): seq<Pte> {
    seq(512, i => ZERO)
  }

  function TableTo(frame: nat): seq<Pte> {
    EmptyTable()[0 := Pte(frame, {P, W})]
  }

  /** The smallest such memory: four tables, the last one empty. */
  lemma EmptyTableTakes()
    ensures var mem: Memory := map[1 := TableTo(2), 2 := TableTo(3), 3 := TableTo(4), 4 := EmptyTable()];
            Taken(mem, 1, 0, 1) && !Taken(mem, 1, 0, 0) && Bare(mem, 1, 0)
  {
    var mem: Memory := map[1 := TableTo(2), 2 := TableTo(3), 3 := TableTo(4), 4 := EmptyTable()];
    assert Path(0) == [0, 0, 0, 0];
    forall w: nat | AskBlock(w) && SamePage(0, w, 1) ensures Lookup(mem, 1, 3, w) == None {
      assert Path(w)[..3] == Path(0)[..3];
      assert Path(w)[0] == Path(w)[..3][0] && Path(w)[1] == Path(w)[..3][1] && Path(w)[2] == Path(w)[..3][2];
      assert Lookup(mem, 4, 0, w) == None;
      assert Lookup(mem, 3, 1, w) == None;
      assert Lookup(mem, 2, 2, w) == None;
    }
    assert Descend(mem, 3, 1, 0, 0) == Some(4);
    assert Descend(mem, 2, 2, 0, 0) == Some(4);
    assert Descend(mem, 1, 3, 0, 0) == Some(4);
    assert SamePage(0, 0, 1) && AskBlock(0);
  }
}
