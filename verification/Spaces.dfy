/** A task's address space: its creation, its own pages, and its destruction. */
module Spaces {
  import opened Common
  import opened PhysMem
  import opened PageTree
  import opened PageUpdate
  import opened PageRights
  import opened PageTeardown
  import opened PageTables
  import opened AddressSpace

  /** What the new root translates. */
  ghost predicate SharesKernel(mem: Memory, mem0: Memory, kernel: nat, root: nat) {
    forall w: nat {:trigger Ask(root, w)} :: Ask(root, w) ==>
      Lookup(mem, root, 3, w) == if UserSlot(w) then None else Lookup(mem0, kernel, 3, w)
  }

  lemma RootAdded(mem: Memory, at: map<nat, Place>, kernel: nat, p: nat)
    requires mem.Keys == at.Keys && Tree(mem, at, kernel) && kernel in mem && |mem[kernel]| == 512 && p !in mem
    ensures var mem', at' := mem[p := RootFrom(mem[kernel])], at[p := Place(p, [], 0)];
            Tree(mem', at', kernel) && SameWalks(at, mem, mem') && SharesKernel(mem', mem, kernel, p)
  {
    RootTree(mem, at, kernel, p);
    var mem' := mem[p := RootFrom(mem[kernel])];
    forall r, w: nat | Ask(r, w) && IsRoot(at, r) ensures Lookup(mem', r, 3, w) == Lookup(mem, r, 3, w) {
      OpenTree(mem, at, kernel);
      LookupMore(mem, at, kernel, p, RootFrom(mem[kernel]), r, 3, w);
    }
    forall w: nat | Ask(p, w) ensures Lookup(mem', p, 3, w) == if UserSlot(w) then None else Lookup(mem, kernel, 3, w) {
      RootWalk(mem, at, kernel, p, w);
    }
  }

  /** A new space: the kernel's part shared, the user's part empty; 0 when no page is free. */
  method Create(pt: Tables) returns (root: nat)
    requires pt.Valid()
    modifies pt, pt.pmm, pt.pmm.used
    ensures pt.Valid() && (root == 0 <==> old(pt.pmm.Free()) == {})
    ensures root == 0 ==> pt.mem == old(pt.mem) && pt.at == old(pt.at) && pt.pmm.Free() == old(pt.pmm.Free())
    ensures root != 0 ==>
              && root in old(pt.pmm.Free()) && pt.pmm.Free() == old(pt.pmm.Free()) - {root}
              && root !in old(pt.at) && pt.at == old(pt.at)[root := Place(root, [], 0)] && root != pt.kernel
              && SameWalks(old(pt.at), old(pt.mem), pt.mem) && SharesKernel(pt.mem, old(pt.mem), pt.kernel, root)
    ensures Nested(old(pt.mem), old(pt.at)) ==> Nested(pt.mem, pt.at)
  {
    root := pt.TakePage();
    if root != 0 {
      KernelTable(pt.mem, pt.at, pt.kernel);
      RootAdded(pt.mem, pt.at, pt.kernel, root);
      if Nested(pt.mem, pt.at) {
        RootNested(pt.mem, pt.at, pt.kernel, root);
      }
      ghost var keys := pt.mem.Keys + {root};
      pt.mem, pt.at := pt.mem[root := RootFrom(pt.mem[pt.kernel])], pt.at[root := Place(root, [], 0)];
      assert pt.mem.Keys == keys;
    }
  }

  lemma KernelTable(mem: Memory, at: map<nat, Place>, kernel: nat)
    requires mem.Keys == at.Keys && Tree(mem, at, kernel)
    ensures kernel in mem && |mem[kernel]| == 512
  {
    OpenTree(mem, at, kernel);
    assert TableOk(mem, at, kernel, kernel);
  }

  // ---- new pages ----

  /** A page taken from the free ones is neither free nor a table after a walk that made tables. */
  lemma PageKept(free: set<nat>, keys: set<nat>, own: set<nat>, free': set<nat>, keys': set<nat>, page: nat)
    requires page in free && page !in keys && own !! free && own !! keys && free' + keys' == (free - {page}) + keys
    ensures page !in free' && page !in keys' && page !in own && own !! free' && own !! keys'
    ensures free' + keys' + (own + {page}) == free + keys + own && (free' + {page}) + keys' + own == free + keys + own
  {
    assert forall x :: x in free' + keys' <==> x in (free - {page}) + keys;
  }

  ghost predicate SpaceKey(k: nat, mem: Memory, free: set<nat>, root: nat, home: map<nat, nat>) {
    true
  }

  /** The space's pages are where home says, and neither free nor tables (behind a key, like Tree). */
  ghost predicate SpaceOk(mem: Memory, free: set<nat>, root: nat, home: map<nat, nat>) {
    forall k {:trigger SpaceKey(k, mem, free, root, home)} :: SpaceKey(k, mem, free, root, home) ==>
      OwnedOk(mem, root, home) && home.Keys !! free && home.Keys !! mem.Keys
  }

  /** All pages that are free, tables, or the space's. */
  ghost function Account(mem: Memory, free: set<nat>, home: map<nat, nat>): set<nat> {
    free + mem.Keys + home.Keys
  }

  lemma PageMapped(mem: Memory, free: set<nat>, at: map<nat, Place>, kernel: nat, root: nat, home: map<nat, nat>,
                   mem': Memory, free': set<nat>, va: nat, page: nat, e: Pte)
    requires SpaceOk(mem, free, root, home) && IsRoot(at, root) && UserSlot(va) && Lookup(mem, root, 3, va) == None
    requires page in free && page !in mem && free' + mem'.Keys == (free - {page}) + mem.Keys
    requires OnlyPage(mem, mem', at, kernel, root, va, 0) && PageHolds(mem', root, va, 0, Some(Leaf(e, 0)))
    requires e.frame == page && OWNED in e.flags
    ensures SpaceOk(mem', free', root, home[page := va]) && page !in home && AtHome(mem', root, page, va)
    ensures Account(mem', free', home[page := va]) == Account(mem, free, home)
  {
    assert SpaceKey(0, mem, free, root, home);
    PageKept(free, mem.Keys, home.Keys, free', mem'.Keys, page);
    OwnedMore(mem, mem', at, kernel, root, home, va, page, e);
    assert home[page := va].Keys == home.Keys + {page};
  }

  lemma PageNotMapped(mem: Memory, free: set<nat>, at: map<nat, Place>, root: nat, home: map<nat, nat>, mem': Memory,
                      free': set<nat>, page: nat)
    requires SpaceOk(mem, free, root, home) && IsRoot(at, root) && SameWalks(at, mem, mem')
    requires page in free && page !in mem && free' + mem'.Keys == (free - {page}) + mem.Keys
    ensures page !in free' && page !in mem'
    ensures SpaceOk(mem', free' + {page}, root, home) && Account(mem', free' + {page}, home) == Account(mem, free, home)
  {
    assert SpaceKey(0, mem, free, root, home);
    PageKept(free, mem.Keys, home.Keys, free', mem'.Keys, page);
    OwnedSame(mem, mem', at, root, home);
  }

  datatype NewStatus = NewOk | NewInvalid | NewNoMemory

  function NewFrom(st: PtStatus): NewStatus {
    match st
    case PtOk => NewOk
    case ENomem => NewNoMemory
    case _ => NewInvalid
  }

  /** What becomes of a request for a fresh page: it takes one page itself, and the missing tables one each. */
  ghost function NewOutcome(mem: Memory, root: nat, va: nat, page: nat, flags: set<nat>, free: nat): NewStatus {
    if free == 0 then NewNoMemory
    else
      var args := MapArgs(va, page * 0x1000, 0x1000, flags + {U, OWNED});
      NewFrom(if args != PtOk then args else MapOutcome(mem, root, va, 0, free - 1))
  }

  /** The page at va is this one, with these flags, and no other translation has changed. */
  ghost predicate NewPageAt(mem: Memory, mem': Memory, at: map<nat, Place>, kernel: nat, root: nat, va: nat, page: nat,
                            flags: set<nat>) {
    && OnlyPage(mem, mem', at, kernel, root, va, 0)
    && PageHolds(mem', root, va, 0, Some(Leaf(LeafFor(page * 0x1000, 0x1000, flags + {U, OWNED}), 0)))
  }

  /** A fresh page, mapped at va as the space's own, or nothing at all. */
  method MapNewPage(pt: Tables, root: nat, va: nat, flags: set<nat>, ghost home: map<nat, nat>)
    returns (st: NewStatus, page: nat, ghost home': map<nat, nat>)
    requires pt.Valid() && IsRoot(pt.at, root) && root != pt.kernel && UserSlot(va)
    requires SpaceOk(pt.mem, pt.pmm.Free(), root, home)
    modifies pt, pt.pmm, pt.pmm.used
    ensures pt.Valid() && Extends(old(pt.at), pt.at, root) && SpaceOk(pt.mem, pt.pmm.Free(), root, home')
    ensures Account(pt.mem, pt.pmm.Free(), home') == old(Account(pt.mem, pt.pmm.Free(), home))
    ensures st == NewOutcome(old(pt.mem), root, va, page, flags, |old(pt.pmm.Free())|)
    ensures page in old(pt.pmm.Free()) || (page == 0 && old(pt.pmm.Free()) == {})
    ensures if st == NewOk then NewPageAt(old(pt.mem), pt.mem, old(pt.at), pt.kernel, root, va, page, flags)
            else SameWalks(old(pt.at), old(pt.mem), pt.mem)
    ensures if st == NewOk
            then page !in home && home' == home[page := va] && AtHome(pt.mem, root, page, va) && pt.Allotted(page)
            else home' == home
    ensures Grades(old(pt.mem), old(pt.at), pt.mem, pt.at, root, va, flags + {U, OWNED}, st == NewOk)
  {
    page := pt.Grab();
    st, home' := NewNoMemory, home;
    if page != 0 {
      var mapped := pt.Map(root, va, page * 0x1000, 0x1000, flags + {U, OWNED});
      if mapped == PtOk {
        PageMapped(old(pt.mem), old(pt.pmm.Free()), old(pt.at), pt.kernel, root, home, pt.mem, pt.pmm.Free(), va, page,
                   LeafFor(page * 0x1000, 0x1000, flags + {U, OWNED}));
        home' := home[page := va];
      } else {
        PageNotMapped(old(pt.mem), old(pt.pmm.Free()), old(pt.at), root, home, pt.mem, pt.pmm.Free(), page);
        pt.PutBack(page);
      }
      st := NewFrom(mapped);
    }
  }

  // ---- destruction ----

  /** What the walks find once slot i of root is gone. */
  ghost predicate SlotEmptied(at: map<nat, Place>, mem: Memory, mem': Memory, root: nat, i: nat) {
    forall r, w: nat {:trigger Ask(r, w)} :: Ask(r, w) && IsRoot(at, r) ==>
      Lookup(mem', r, 3, w) == if r == root && Index(w, 3) == i then None else Lookup(mem, r, 3, w)
  }

  /** An absent slot has nothing behind it. */
  lemma SlotAbsent(mem: Memory, at: map<nat, Place>, kernel: nat, root: nat, i: nat)
    requires mem.Keys == at.Keys && Tree(mem, at, kernel) && IsRoot(at, root) && i < 512
    ensures root in mem && |mem[root]| == 512
    ensures !Present(mem[root][i]) ==>
              && Subtree(at, root, [i]) == {} && AllLeaves(mem, at, root, [i], []) && SlotEmptied(at, mem, mem, root, i)
  {
    OpenTree(mem, at, kernel);
    assert TableOk(mem, at, kernel, root);
    BehindNext(mem, at, kernel, root, i);
    assert at[root].path + [i] == [i];
    if !Present(mem[root][i]) {
      forall x ensures !LeafSpot(mem, at, root, [i], x) {
        assert Under(at, root, [i], x.t) ==> x.t in Subtree(at, root, [i]);
      }
    }
  }

  /** The table behind a slot that is present. */
  lemma SlotPresent(mem: Memory, at: map<nat, Place>, kernel: nat, root: nat, i: nat)
    requires mem.Keys == at.Keys && Tree(mem, at, kernel) && IsRoot(at, root) && root != kernel && 1 <= i <= 255
    requires root in mem && |mem[root]| == 512 && Present(mem[root][i])
    ensures var c := mem[root][i].frame; c in mem && at[c].root == root && at[c].path == [i]
  {
    OpenTree(mem, at, kernel);
    assert TableOk(mem, at, kernel, root) && EntryOk(mem, at, kernel, root, i);
  }

  lemma SlotRemoved(mem: Memory, mem': Memory, at: map<nat, Place>, at': map<nat, Place>, kernel: nat, root: nat,
                    i: nat)
    requires mem.Keys == at.Keys && Tree(mem, at, kernel) && SlotGone(mem, mem', at, at', kernel, root, i)
    ensures Tree(mem', at', kernel) && SlotEmptied(at, mem, mem', root, i) && mem'.Keys == at'.Keys
    ensures forall t | t in mem' && t != root :: mem'[t] == mem[t]
  {
    SlotTree(mem, mem', at, at', kernel, root, i);
    forall r, w: nat | Ask(r, w) && IsRoot(at, r)
      ensures Lookup(mem', r, 3, w) == if r == root && Index(w, 3) == i then None else Lookup(mem, r, 3, w)
    {
      SlotWalk(mem, mem', at, at', kernel, root, i, r, w);
    }
  }

  lemma SlotNested(mem: Memory, at: map<nat, Place>, root: nat, i: nat, freed: set<nat>)
    requires root in mem && i < |mem[root]|
    ensures Nested(mem, at) ==> Nested(Without(Put(mem, root, i, ZERO), freed), at - freed)
  {
    if Nested(mem, at) {
      NestedFewer(mem, at, Without(Put(mem, root, i, ZERO), freed), at - freed);
    }
  }

  /** One slot: everything behind it freed and every leaf reported, once each. */
  method DestroySlot(pt: Tables, root: nat, i: nat) returns (log: seq<Report>, ghost ys: seq<Spot>)
    requires pt.Valid() && IsRoot(pt.at, root) && root != pt.kernel && 1 <= i <= 255
    modifies pt, pt.pmm, pt.pmm.used
    ensures pt.Valid() && pt.at == old(pt.at) - Subtree(old(pt.at), root, [i])
    ensures pt.pmm.Free() == old(pt.pmm.Free()) + Subtree(old(pt.at), root, [i])
    ensures SlotEmptied(old(pt.at), old(pt.mem), pt.mem, root, i)
    ensures forall t | t in pt.mem && t != root :: t in old(pt.mem) && pt.mem[t] == old(pt.mem)[t]
    ensures AllLeaves(old(pt.mem), old(pt.at), root, [i], ys) && Reports(old(pt.mem), old(pt.at), ys, log)
    ensures Nested(old(pt.mem), old(pt.at)) ==> Nested(pt.mem, pt.at)
  {
    SlotAbsent(pt.mem, pt.at, pt.kernel, root, i);
    log, ys := [], [];
    if Present(pt.mem[root][i]) {
      SlotPresent(pt.mem, pt.at, pt.kernel, root, i);
      var freed;
      log, freed, ys := pt.DestroyTop(pt.mem[root][i].frame);
      ghost var mem0, at0 := pt.mem, pt.at;
      pt.mem := Without(Put(pt.mem, root, i, ZERO), freed);
      pt.at := pt.at - freed;
      SlotRemoved(mem0, pt.mem, at0, pt.at, pt.kernel, root, i);
      SlotNested(mem0, at0, root, i, freed);
    }
  }

  /** What the walks find once slots 1 up to k of root are gone. */
  ghost predicate SlotsEmptied(at: map<nat, Place>, mem: Memory, mem': Memory, root: nat, k: nat) {
    forall r, w: nat {:trigger Ask(r, w)} :: Ask(r, w) && IsRoot(at, r) ==>
      Lookup(mem', r, 3, w) == if r == root && 1 <= Index(w, 3) < k then None else Lookup(mem, r, 3, w)
  }

  ghost predicate GoneKey(j: nat, mem: Memory, at: map<nat, Place>, k: nat) {
    true
  }

  /** How far the teardown has come (behind a key, like Tree). */
  ghost predicate TornDown(mem0: Memory, at0: map<nat, Place>, free0: set<nat>, mem: Memory, at: map<nat, Place>,
                           free: set<nat>, root: nat, k: nat, xs: seq<Spot>, log: seq<Report>) {
    forall j {:trigger GoneKey(j, mem, at, k)} :: GoneKey(j, mem, at, k) ==>
      && mem.Keys == at.Keys && mem0.Keys == at0.Keys && IsRoot(at0, root)
      && SlotsGone(mem0, at0, mem, at, root, 1, k) && free == free0 + SlotTables(at0, root, 1, k)
      && SlotsEmptied(at0, mem0, mem, root, k)
      && SlotLeaves(mem0, at0, root, 1, k, xs) && Reports(mem0, at0, xs, log)
  }

  lemma TornNone(mem: Memory, at: map<nat, Place>, free: set<nat>, root: nat)
    requires mem.Keys == at.Keys && IsRoot(at, root)
    ensures TornDown(mem, at, free, mem, at, free, root, 1, [], [])
  {
    assert SlotTables(at, root, 1, 1) == {};
    assert at - {} == at;
  }

  lemma ReportsKept(mem0: Memory, at0: map<nat, Place>, mem: Memory, at: map<nat, Place>, root: nat, k: nat,
                    ys: seq<Spot>, log: seq<Report>)
    requires mem.Keys == at.Keys && SlotsGone(mem0, at0, mem, at, root, 1, k) && mem0.Keys == at0.Keys
    requires IsRoot(at0, root)
    requires AllLeaves(mem, at, root, [k], ys) && Reports(mem, at, ys, log)
    ensures Reports(mem0, at0, ys, log)
  {
    forall j | 0 <= j < |ys|
      ensures ys[j].t in mem0 && ys[j].t in at0 && ys[j].i < |mem0[ys[j].t]| && |at0[ys[j].t].path| <= 3
      ensures log[j] == ReportOf(mem0[ys[j].t][ys[j].i], LevelOf(at0[ys[j].t]))
    {
      assert ys[j] in ys;
      assert LeafSpot(mem, at, root, [k], ys[j]);
    }
  }

  /** One slot more. */
  lemma TornMore(mem0: Memory, at0: map<nat, Place>, free0: set<nat>, mem: Memory, at: map<nat, Place>, free: set<nat>,
                 mem': Memory, at': map<nat, Place>, free': set<nat>, root: nat, k: nat,
                 xs: seq<Spot>, log: seq<Report>, ys: seq<Spot>, sub: seq<Report>)
    requires TornDown(mem0, at0, free0, mem, at, free, root, k, xs, log) && k >= 1 && mem'.Keys == at'.Keys
    requires at' == at - Subtree(at, root, [k]) && free' == free + Subtree(at, root, [k])
    requires SlotEmptied(at, mem, mem', root, k)
    requires forall t | t in mem' && t != root :: t in mem && mem'[t] == mem[t]
    requires AllLeaves(mem, at, root, [k], ys) && Reports(mem, at, ys, sub)
    ensures TornDown(mem0, at0, free0, mem', at', free', root, k + 1, xs + ys, log + sub)
  {
    assert GoneKey(0, mem, at, k);
    SlotTablesNext(at0, root, 1, k);
    SlotLeavesNext(mem0, at0, mem, at, root, 1, k, xs, ys);
    ReportsKept(mem0, at0, mem, at, root, k, ys, sub);
    ReportsJoin(mem0, at0, xs, log, ys, sub);
    assert at' == at0 - SlotTables(at0, root, 1, k + 1);
    forall r, w: nat | Ask(r, w) && IsRoot(at0, r)
      ensures Lookup(mem', r, 3, w) == if r == root && 1 <= Index(w, 3) < k + 1 then None else Lookup(mem0, r, 3, w)
    {
      RootStays(at0, root, k, r);
    }
  }

  lemma RootStays(at0: map<nat, Place>, root: nat, k: nat, r: nat)
    requires IsRoot(at0, r)
    ensures IsRoot(at0 - SlotTables(at0, root, 1, k), r)
  {
  }

  /** All user slots of root. */
  method DestroySlots(pt: Tables, root: nat) returns (log: seq<Report>, ghost xs: seq<Spot>)
    requires pt.Valid() && IsRoot(pt.at, root) && root != pt.kernel
    modifies pt, pt.pmm, pt.pmm.used
    ensures pt.Valid() && IsRoot(pt.at, root)
    ensures TornDown(old(pt.mem), old(pt.at), old(pt.pmm.Free()), pt.mem, pt.at, pt.pmm.Free(), root, 256, xs, log)
    ensures Nested(old(pt.mem), old(pt.at)) ==> Nested(pt.mem, pt.at)
  {
    log, xs := [], [];
    TornNone(pt.mem, pt.at, pt.pmm.Free(), root);
    for i := 1 to 256
      invariant pt.Valid() && IsRoot(pt.at, root)
      invariant TornDown(old(pt.mem), old(pt.at), old(pt.pmm.Free()), pt.mem, pt.at, pt.pmm.Free(), root, i, xs, log)
      invariant Nested(old(pt.mem), old(pt.at)) ==> Nested(pt.mem, pt.at)
    {
      ghost var mem1, at1, free1 := pt.mem, pt.at, pt.pmm.Free();
      var sub;
      ghost var ys;
      sub, ys := DestroySlot(pt, root, i);
      TornMore(old(pt.mem), old(pt.at), old(pt.pmm.Free()), mem1, at1, free1, pt.mem, pt.at, pt.pmm.Free(), root, i, xs,
               log, ys, sub);
      log, xs := log + sub, xs + ys;
    }
  }

  // ---- the space's own pages ----

  predicate Own(rep: Report) {
    OWNED in rep.flags && rep.size == 0x1000
  }

  /** The pages that the reports mark as the space's own. */
  ghost function OwnPages(log: seq<Report>): set<nat> {
    if log == [] then {}
    else OwnPages(log[..|log| - 1]) + (if Own(log[|log| - 1]) then {log[|log| - 1].pa / 0x1000} else {})
  }

  lemma {:induction false} OwnPagesHas(log: seq<Report>, k: nat)
    requires k < |log| && Own(log[k])
    ensures log[k].pa / 0x1000 in OwnPages(log)
  {
    if k < |log| - 1 {
      OwnPagesHas(log[..|log| - 1], k);
    }
  }

  lemma {:induction false} OwnPagesOnly(log: seq<Report>, f: nat) returns (k: nat)
    requires f in OwnPages(log)
    ensures k < |log| && Own(log[k]) && log[k].pa / 0x1000 == f
  {
    var last := log[|log| - 1];
    if Own(last) && last.pa / 0x1000 == f {
      k := |log| - 1;
    } else {
      k := OwnPagesOnly(log[..|log| - 1], f);
    }
  }

  /** No page is reported as own twice. */
  ghost predicate OwnOnce(log: seq<Report>) {
    forall j, k | 0 <= j < k < |log| && Own(log[j]) && Own(log[k]) :: log[j].pa / 0x1000 != log[k].pa / 0x1000
  }

  /** Gives back the pages that belonged to the space. */
  method FreeOwned(pt: Tables, log: seq<Report>)
    requires pt.Valid() && OwnOnce(log) && OwnPages(log) !! pt.pmm.Free() && OwnPages(log) !! pt.mem.Keys
    requires forall f | f in OwnPages(log) :: pt.Allotted(f)
    modifies pt.pmm, pt.pmm.used
    ensures pt.Valid() && pt.pmm.Free() == old(pt.pmm.Free()) + OwnPages(log)
  {
    for k := 0 to |log|
      invariant pt.Valid() && pt.pmm.Free() == old(pt.pmm.Free()) + OwnPages(log[..k])
      invariant forall f | f in OwnPages(log) :: pt.Allotted(f)
    {
      assert log[..k + 1][..k] == log[..k];
      if Own(log[k]) {
        var f := log[k].pa / 0x1000;
        OwnPagesHas(log, k);
        if f in OwnPages(log[..k]) {
          var j := OwnPagesOnly(log[..k], f);
        }
        pt.PutBack(f);
      }
    }
    assert log[..|log|] == log;
  }

  /** An own leaf reported in a teardown is a page of the space. */
  lemma OwnReport(mem: Memory, at: map<nat, Place>, kernel: nat, root: nat, home: map<nat, nat>, xs: seq<Spot>,
                  log: seq<Report>, k: nat)
    requires mem.Keys == at.Keys && Tree(mem, at, kernel) && IsRoot(at, root) && OwnedOk(mem, root, home)
    requires SlotLeaves(mem, at, root, 1, 256, xs) && Reports(mem, at, xs, log) && k < |log| && Own(log[k])
    ensures SlotLeaf(mem, at, root, 1, 256, xs[k])
    ensures log[k].pa / 0x1000 in home && Path(home[log[k].pa / 0x1000]) == at[xs[k].t].path + [xs[k].i]
  {
    assert xs[k] in xs;
    OwnSpot(mem, at, kernel, root, home, xs[k]);
  }

  lemma HomeReported(mem: Memory, at: map<nat, Place>, kernel: nat, root: nat, home: map<nat, nat>, xs: seq<Spot>,
                     log: seq<Report>, f: nat)
    requires mem.Keys == at.Keys && Tree(mem, at, kernel) && IsRoot(at, root) && root != kernel
    requires OwnedOk(mem, root, home)
    requires SlotLeaves(mem, at, root, 1, 256, xs) && Reports(mem, at, xs, log) && f in home
    ensures f in OwnPages(log)
  {
    var x := HomeSpot(mem, at, kernel, root, home, f);
    assert x in xs;
    var k :| 0 <= k < |xs| && xs[k] == x;
    OwnPagesHas(log, k);
  }

  lemma OwnReportedOnce(mem: Memory, at: map<nat, Place>, kernel: nat, root: nat, home: map<nat, nat>, xs: seq<Spot>,
                        log: seq<Report>)
    requires mem.Keys == at.Keys && Tree(mem, at, kernel) && IsRoot(at, root) && OwnedOk(mem, root, home)
    requires SlotLeaves(mem, at, root, 1, 256, xs) && Reports(mem, at, xs, log)
    ensures OwnOnce(log)
  {
    forall j, k | 0 <= j < k < |log| && Own(log[j]) && Own(log[k]) ensures log[j].pa / 0x1000 != log[k].pa / 0x1000 {
      OwnReport(mem, at, kernel, root, home, xs, log, j);
      OwnReport(mem, at, kernel, root, home, xs, log, k);
      if log[j].pa / 0x1000 == log[k].pa / 0x1000 {
        SpotPlace(mem, at, kernel, root, xs[j], xs[k]);
      }
    }
  }

  /** The own leaves reported in a teardown are exactly the space's pages, each once. */
  lemma OwnAreHome(mem: Memory, at: map<nat, Place>, kernel: nat, root: nat, home: map<nat, nat>, xs: seq<Spot>,
                   log: seq<Report>)
    requires mem.Keys == at.Keys && Tree(mem, at, kernel) && IsRoot(at, root) && root != kernel
    requires OwnedOk(mem, root, home)
    requires SlotLeaves(mem, at, root, 1, 256, xs) && Reports(mem, at, xs, log)
    ensures OwnPages(log) == home.Keys && OwnOnce(log)
  {
    OwnReportedOnce(mem, at, kernel, root, home, xs, log);
    forall f | f in OwnPages(log) ensures f in home {
      var k := OwnPagesOnly(log, f);
      OwnReport(mem, at, kernel, root, home, xs, log, k);
    }
    forall f | f in home ensures f in OwnPages(log) {
      HomeReported(mem, at, kernel, root, home, xs, log, f);
    }
  }

  lemma SpotPlace(mem: Memory, at: map<nat, Place>, kernel: nat, root: nat, x: Spot, y: Spot)
    requires mem.Keys == at.Keys && Tree(mem, at, kernel) && SlotLeaf(mem, at, root, 1, 256, x)
    requires SlotLeaf(mem, at, root, 1, 256, y)
    requires at[x.t].path + [x.i] == at[y.t].path + [y.i]
    ensures x == y
  {
    OpenTree(mem, at, kernel);
    var p, q := at[x.t].path + [x.i], at[y.t].path + [y.i];
    assert p[..|p| - 1] == at[x.t].path && q[..|q| - 1] == at[y.t].path && p[|p| - 1] == x.i && q[|q| - 1] == y.i;
    assert SamePlace(at[x.t], at[y.t]);
  }

  // ---- the root goes ----

  /** A task's tables hang in its own slots. */
  lemma InOwnSlots(mem: Memory, at: map<nat, Place>, kernel: nat, root: nat, s: nat)
    requires mem.Keys == at.Keys && Tree(mem, at, kernel) && IsRoot(at, root) && root != kernel
    requires s in at && at[s].root == root && at[s].path != []
    ensures 1 <= at[s].path[0] <= 255
  {
    OpenTree(mem, at, kernel);
    var i := at[s].path[0];
    PrefixOne(at[s].path, i);
    var u := Ancestor(mem, at, kernel, root, [i], s);
    assert TableOk(mem, at, kernel, u) && Attached(mem, at, u);
    assert TableOk(mem, at, kernel, root);
    assert TableOk(mem, at, kernel, at[u].up);
    assert at[u].up == root;
    assert EntryOk(mem, at, kernel, root, i);
  }

  ghost function TablesOf(at: map<nat, Place>, root: nat): set<nat> {
    set s | s in at && at[s].root == root
  }

  lemma AllInSlots(mem: Memory, at: map<nat, Place>, kernel: nat, root: nat)
    requires mem.Keys == at.Keys && Tree(mem, at, kernel) && IsRoot(at, root) && root != kernel
    ensures TablesOf(at, root) == SlotTables(at, root, 1, 256) + {root} && root !in SlotTables(at, root, 1, 256)
  {
    forall s | s in at && at[s].root == root ensures s == root || InSlots(at, root, 1, 256, s) {
      OpenTree(mem, at, kernel);
      assert TableOk(mem, at, kernel, s);
      if at[s].path != [] {
        InOwnSlots(mem, at, kernel, root, s);
      }
    }
  }

  /** A root without tables of its own can go. */
  lemma RootGone(mem: Memory, at: map<nat, Place>, kernel: nat, root: nat)
    requires mem.Keys == at.Keys && Tree(mem, at, kernel) && IsRoot(at, root) && root != kernel
    requires forall s | s in at && at[s].root == root :: s == root
    ensures Tree(Without(mem, {root}), at - {root}, kernel)
  {
    OpenTree(mem, at, kernel);
    var mem', at' := Without(mem, {root}), at - {root};
    forall s | s in mem' ensures TableOk(mem', at', kernel, s) && Attached(mem', at', s) {
      assert TableOk(mem, at, kernel, s) && Attached(mem, at, s);
      forall i | 0 <= i < 512 ensures EntryOk(mem', at', kernel, s, i) {
        assert EntryOk(mem, at, kernel, s, i);
      }
    }
    CloseTree(mem', at', kernel);
  }

  lemma {:induction false} WithoutRoot(mem: Memory, at: map<nat, Place>, kernel: nat, root: nat, t: nat, level: nat,
                                       w: nat)
    requires TreeOk(mem, at, kernel) && IsRoot(at, root) && level < 4 && OnWalk(at, t, level, w) && t != root
    ensures Lookup(Without(mem, {root}), t, level, w) == Lookup(mem, t, level, w)
    decreases level
  {
    assert TableOk(mem, at, kernel, t);
    if level > 0 && Refers(mem[t][Index(w, level)], level) {
      WalkNext(mem, at, kernel, t, level, w);
      WithoutRoot(mem, at, kernel, root, mem[t][Index(w, level)].frame, level - 1, w);
    }
  }

  /** After everything: the other roots translate as before. */
  ghost predicate OthersSame(at: map<nat, Place>, mem: Memory, mem': Memory, root: nat) {
    forall r, w: nat {:trigger Ask(r, w)} ::
      Ask(r, w) && IsRoot(at, r) && r != root ==> Lookup(mem', r, 3, w) == Lookup(mem, r, 3, w)
  }

  /** The whole teardown, value by value. */
  lemma SpaceGone(mem0: Memory, at0: map<nat, Place>, free0: set<nat>, mem: Memory, at: map<nat, Place>, free: set<nat>,
                  kernel: nat, root: nat, xs: seq<Spot>, log: seq<Report>)
    requires mem0.Keys == at0.Keys && Tree(mem0, at0, kernel) && IsRoot(at0, root) && root != kernel
    requires TornDown(mem0, at0, free0, mem, at, free, root, 256, xs, log) && Tree(mem, at, kernel)
    ensures mem.Keys == at.Keys && root in mem && Tree(Without(mem, {root}), at - {root}, kernel)
    ensures at - {root} == at0 - TablesOf(at0, root) && free + {root} == free0 + TablesOf(at0, root)
    ensures OthersSame(at0, mem0, Without(mem, {root}), root)
  {
    assert GoneKey(0, mem, at, 256);
    AllInSlots(mem0, at0, kernel, root);
    RootStays(at0, root, 256, root);
    forall s | s in at && at[s].root == root ensures s == root {
      assert s in TablesOf(at0, root);
    }
    RootGone(mem, at, kernel, root);
    OpenTree(mem, at, kernel);
    forall r, w: nat | Ask(r, w) && IsRoot(at0, r) && r != root
      ensures Lookup(Without(mem, {root}), r, 3, w) == Lookup(mem0, r, 3, w)
    {
      RootStays(at0, root, 256, r);
      WithoutRoot(mem, at, kernel, root, r, 3, w);
    }
  }

  ghost predicate AllAllotted(pt: Tables, home: map<nat, nat>)
    reads pt.pmm.managed
  {
    forall f | f in home :: pt.Allotted(f)
  }

  lemma HomeReports(mem0: Memory, at0: map<nat, Place>, free0: set<nat>, mem: Memory, at: map<nat, Place>,
                    free: set<nat>, kernel: nat, root: nat, xs: seq<Spot>, log: seq<Report>, home: map<nat, nat>)
    requires mem0.Keys == at0.Keys && Tree(mem0, at0, kernel) && IsRoot(at0, root) && root != kernel
    requires TornDown(mem0, at0, free0, mem, at, free, root, 256, xs, log) && SpaceOk(mem0, free0, root, home)
    ensures OwnPages(log) == home.Keys && OwnOnce(log) && home.Keys !! free && home.Keys !! mem.Keys
    ensures SlotLeaves(mem0, at0, root, 1, 256, xs) && Reports(mem0, at0, xs, log)
  {
    assert GoneKey(0, mem, at, 256) && SpaceKey(0, mem0, free0, root, home);
    OwnAreHome(mem0, at0, kernel, root, home, xs, log);
  }

  /** The end of a space: every leaf is reported once, and its tables, its root and its own pages are free
      again, each freed once. */
  method Destroy(pt: Tables, root: nat, ghost home: map<nat, nat>) returns (log: seq<Report>, ghost xs: seq<Spot>)
    requires pt.Valid() && IsRoot(pt.at, root) && root != pt.kernel
    requires SpaceOk(pt.mem, pt.pmm.Free(), root, home) && AllAllotted(pt, home)
    modifies pt, pt.pmm, pt.pmm.used
    ensures pt.Valid() && pt.at == old(pt.at) - TablesOf(old(pt.at), root)
    ensures pt.pmm.Free() == old(pt.pmm.Free()) + TablesOf(old(pt.at), root) + home.Keys
    ensures OthersSame(old(pt.at), old(pt.mem), pt.mem, root)
    ensures SlotLeaves(old(pt.mem), old(pt.at), root, 1, 256, xs) && Reports(old(pt.mem), old(pt.at), xs, log)
    ensures OwnPages(log) == home.Keys && OwnOnce(log)
    ensures Nested(old(pt.mem), old(pt.at)) ==> Nested(pt.mem, pt.at)
  {
    log, xs := DestroySlots(pt, root);
    SpaceGone(old(pt.mem), old(pt.at), old(pt.pmm.Free()), pt.mem, pt.at, pt.pmm.Free(), pt.kernel, root, xs, log);
    HomeReports(old(pt.mem), old(pt.at), old(pt.pmm.Free()), pt.mem, pt.at, pt.pmm.Free(), pt.kernel, root, xs, log,
                home);
    FreeOwned(pt, log);
    ghost var mem1, at1 := pt.mem, pt.at;
    pt.DropPage(root);
    if Nested(mem1, at1) {
      NestedFewer(mem1, at1, pt.mem, pt.at);
    }
  }
}
