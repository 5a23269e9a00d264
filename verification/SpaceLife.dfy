/** A memory object's pages in a task's space, and the whole life of a space. */
module SpaceLife {
  import opened Common
  import opened PhysMem
  import opened PageTree
  import opened PageUpdate
  import opened PageRights
  import opened PageTeardown
  import opened PageTables
  import opened AddressSpace
  import opened Spaces
  import UserAccess

  // ---- mapping a memory object ----

  datatype VmoStatus = VmoOk | VmoInvalid | VmoRange | VmoExists | VmoNoMemory

  function PageAt(va: nat, i: nat): nat {
    va + 0x1000 * i
  }

  function ShareFlags(write: bool): set<nat> {
    {U, NX} + if write then {W} else {}
  }

  function Shared(frame: nat, write: bool): Leaf {
    Leaf(LeafFor(frame * 0x1000, 0x1000, ShareFlags(write)), 0)
  }

  ghost predicate InPages(va: nat, n: nat, w: nat) {
    exists i: nat :: i < n && SamePage(PageAt(va, i), w, 0)
  }

  ghost predicate ShowKey(k: nat, mem0: Memory, mem: Memory, found: seq<Option<Leaf>>) {
    true
  }

  /** Page after page from va, root's walks find what `found` says; all other walks find what they found
      (behind a key, like Tree). */
  ghost predicate Shows(mem0: Memory, mem: Memory, at0: map<nat, Place>, root: nat, va: nat, found: seq<Option<Leaf>>) {
    forall k {:trigger ShowKey(k, mem0, mem, found)} :: ShowKey(k, mem0, mem, found) ==>
      && (forall i: nat | i < |found| :: PageHolds(mem, root, PageAt(va, i), 0, found[i]))
      && (forall r, w: nat {:trigger Ask(r, w)} ::
            Ask(r, w) && IsRoot(at0, r) && !(r == root && InPages(va, |found|, w)) ==>
           Lookup(mem, r, 3, w) == Lookup(mem0, r, 3, w))
  }

  lemma ShowsAt(mem0: Memory, mem: Memory, at0: map<nat, Place>, root: nat, va: nat, found: seq<Option<Leaf>>, i: nat)
    requires Shows(mem0, mem, at0, root, va, found) && i < |found|
    ensures Lookup(mem, root, 3, PageAt(va, i)) == found[i]
  {
    assert ShowKey(0, mem0, mem, found);
    assert Ask(root, PageAt(va, i)) && SamePage(PageAt(va, i), PageAt(va, i), 0);
  }

  lemma ShowsOthers(mem0: Memory, mem: Memory, at0: map<nat, Place>, root: nat, va: nat, found: seq<Option<Leaf>>)
    requires Shows(mem0, mem, at0, root, va, found)
    ensures OthersSame(at0, mem0, mem, root)
  {
    assert ShowKey(0, mem0, mem, found);
  }

  /** Where the source lets a memory object of n pages go. */
  predicate Fits(va: nat, n: nat) {
    va % 0x1000 == 0 && UserAccess.RangeOk(va, 0x1000 * n)
  }

  lemma PageFits(va: nat, n: nat, i: nat)
    requires Fits(va, n) && i < n
    ensures Canonical(PageAt(va, i)) && UserSlot(PageAt(va, i)) && Aligned(PageAt(va, i), 0x1000)
  {
    SlotOf(PageAt(va, i));
  }

  lemma SlotOf(w: nat)
    requires 0x80_0000_0000 <= w < 0x8000_0000_0000
    ensures 1 <= Index(w, 3) <= 255
  {
  }

  lemma Apart(va: nat, n: nat, i: nat, j: nat, w: nat)
    requires Fits(va, n) && i < n && j < n && i != j && SamePage(PageAt(va, i), w, 0)
    ensures !SamePage(PageAt(va, j), w, 0)
  {
    PageFits(va, n, i);
    PageFits(va, n, j);
    SamePageIff(PageAt(va, i), PageAt(va, j), 0);
  }

  /** One page more, or one page less. */
  lemma Shown(mem0: Memory, mem: Memory, mem': Memory, at0: map<nat, Place>, at: map<nat, Place>, kernel: nat,
              root: nat, va: nat, found: seq<Option<Leaf>>, i: nat, x: Option<Leaf>)
    requires Fits(va, |found|) && i < |found| && root != kernel && Extends(at0, at, root) && IsRoot(at, root)
    requires Shows(mem0, mem, at0, root, va, found)
    requires OnlyPage(mem, mem', at, kernel, root, PageAt(va, i), 0) && PageHolds(mem', root, PageAt(va, i), 0, x)
    ensures Shows(mem0, mem', at0, root, va, found[i := x])
  {
    assert ShowKey(0, mem0, mem, found);
    forall j: nat | j < |found| && j != i ensures PageHolds(mem', root, PageAt(va, j), 0, found[j]) {
      forall w: nat | Ask(root, w) && SamePage(PageAt(va, j), w, 0) ensures Lookup(mem', root, 3, w) == found[j] {
        Apart(va, |found|, j, i, w);
      }
    }
    forall r, w: nat | Ask(r, w) && IsRoot(at0, r) && !(r == root && InPages(va, |found|, w))
      ensures Lookup(mem', r, 3, w) == Lookup(mem0, r, 3, w)
    {
      assert AskTable(r);
    }
  }

  /** Before anything is mapped. */
  lemma ShowsNone(mem: Memory, at: map<nat, Place>, root: nat, va: nat, found: seq<Option<Leaf>>)
    requires forall i: nat | i < |found| :: found[i] == None && Lookup(mem, root, 3, PageAt(va, i)) == None
    ensures Shows(mem, mem, at, root, va, found)
  {
    forall i: nat, w: nat | i < |found| && SamePage(PageAt(va, i), w, 0) ensures Lookup(mem, root, 3, w) == None {
      SamePath(PageAt(va, i), w);
      LookupPath(mem, root, 3, w, PageAt(va, i));
    }
  }

  /** Pages that were free and show nothing again: nothing has changed. */
  lemma ShowsAgain(mem0: Memory, mem: Memory, at0: map<nat, Place>, root: nat, va: nat, found: seq<Option<Leaf>>)
    requires Shows(mem0, mem0, at0, root, va, found) && Shows(mem0, mem, at0, root, va, found) && IsRoot(at0, root)
    ensures SameWalks(at0, mem0, mem)
  {
    assert ShowKey(0, mem0, mem0, found) && ShowKey(0, mem0, mem, found);
  }

  /** A page of the space is not where nothing was mapped. */
  lemma HomeElsewhere(mem: Memory, root: nat, va: nat, n: nat, f: nat, w: nat)
    requires AtHome(mem, root, f, w) && forall i: nat | i < n :: Lookup(mem, root, 3, PageAt(va, i)) == None
    ensures !InPages(va, n, w)
  {
    forall i: nat | i < n ensures !SamePage(PageAt(va, i), w, 0) {
      SamePath(PageAt(va, i), w);
      if Path(w) == Path(PageAt(va, i)) {
        LookupPath(mem, root, 3, w, PageAt(va, i));
      }
    }
  }

  /** Pages shared with others leave the space's own pages alone. */
  lemma OwnedShares(mem0: Memory, mem: Memory, at0: map<nat, Place>, root: nat, home: map<nat, nat>, va: nat,
                    found: seq<Option<Leaf>>)
    requires OwnedOk(mem0, root, home) && IsRoot(at0, root) && Shows(mem0, mem, at0, root, va, found)
    requires forall i: nat | i < |found| :: Lookup(mem0, root, 3, PageAt(va, i)) == None
    requires forall i: nat | i < |found| :: found[i].Some? ==> OWNED !in found[i].value.entry.flags
    ensures OwnedOk(mem, root, home)
  {
    assert ShowKey(0, mem0, mem, found);
    forall f | f in home ensures AtHome(mem, root, f, home[f]) {
      HomeElsewhere(mem0, root, va, |found|, f, home[f]);
      assert Ask(root, home[f]);
    }
    forall w: nat | Ask(root, w) && UserSlot(w) ensures OwnLeafOk(mem, root, home, w) {
      assert OwnLeafOk(mem0, root, home, w);
      if InPages(va, |found|, w) {
        var i: nat :| i < |found| && SamePage(PageAt(va, i), w, 0);
        assert Lookup(mem, root, 3, w) == found[i];
      }
    }
  }

  lemma SpaceShares(mem0: Memory, free0: set<nat>, mem: Memory, free: set<nat>, at0: map<nat, Place>, root: nat,
                    home: map<nat, nat>, va: nat, found: seq<Option<Leaf>>)
    requires SpaceOk(mem0, free0, root, home) && IsRoot(at0, root) && Shows(mem0, mem, at0, root, va, found)
    requires forall i: nat | i < |found| :: Lookup(mem0, root, 3, PageAt(va, i)) == None
    requires forall i: nat | i < |found| :: found[i].Some? ==> OWNED !in found[i].value.entry.flags
    requires free + mem.Keys == free0 + mem0.Keys
    ensures SpaceOk(mem, free, root, home) && Account(mem, free, home) == Account(mem0, free0, home)
  {
    assert SpaceKey(0, mem0, free0, root, home);
    OwnedShares(mem0, mem, at0, root, home, va, found);
    assert home.Keys !! free + mem.Keys;
  }

  function Leaves(frames: seq<nat>, write: bool): seq<Option<Leaf>> {
    seq(|frames|, i requires 0 <= i < |frames| => Some(Shared(frames[i], write)))
  }

  /** The first pages mapped, the rest not. */
  function Partly(frames: seq<nat>, write: bool, from: nat, to: nat): seq<Option<Leaf>> {
    seq(|frames|, i requires 0 <= i < |frames| => if from <= i < to then Some(Shared(frames[i], write)) else None)
  }

  /** Every byte of the i-th page translates to the byte of the i-th frame, for the user, writable if that was
      asked for, and not to be executed. */
  lemma SharedByte(mem0: Memory, mem: Memory, at0: map<nat, Place>, root: nat, va: nat, frames: seq<nat>, write: bool,
                   i: nat, off: nat)
    requires Shows(mem0, mem, at0, root, va, Leaves(frames, write)) && Fits(va, |frames|)
    requires i < |frames| && off < 0x1000
    ensures var q := Query(mem, root, va + 0x1000 * i + off);
            && q.Some? && q.value.pa == frames[i] * 0x1000 + off && q.value.size == 0x1000
            && q.value.flags == {P, U, NX} + if write then {W} else {}
  {
    var w := PageAt(va, i) + off;
    ByteFits(va, |frames|, i, off);
    ShowsByte(mem0, mem, at0, root, va, Leaves(frames, write), i, w);
    SharedQuery(mem, root, w, frames[i], write);
  }

  lemma ByteFits(va: nat, n: nat, i: nat, off: nat)
    requires Fits(va, n) && i < n && off < 0x1000
    ensures var w := PageAt(va, i) + off; Canonical(w) && w % 0x1000 == off && SamePage(PageAt(va, i), w, 0)
  {
    var w := PageAt(va, i) + off;
    PageFits(va, n, i);
    assert w < 0x8000_0000_0000 && w / 0x1000 == PageAt(va, i) / 0x1000;
    SamePageIff(PageAt(va, i), w, 0);
  }

  lemma ShowsByte(mem0: Memory, mem: Memory, at0: map<nat, Place>, root: nat, va: nat, found: seq<Option<Leaf>>, i: nat,
                  w: nat)
    requires Shows(mem0, mem, at0, root, va, found) && i < |found| && SamePage(PageAt(va, i), w, 0)
    ensures Lookup(mem, root, 3, w) == found[i]
  {
    assert ShowKey(0, mem0, mem, found);
    assert Ask(root, w);
  }

  lemma SharedQuery(mem: Memory, root: nat, w: nat, frame: nat, write: bool)
    requires Canonical(w) && Lookup(mem, root, 3, w) == Some(Shared(frame, write))
    ensures Query(mem, root, w) ==
              Some(Mapping(frame * 0x1000 + w % 0x1000, {P, U, NX} + (if write then {W} else {}), 0x1000))
  {
    assert LeafFor(frame * 0x1000, 0x1000, ShareFlags(write)).frame == frame;
    assert LeafFor(frame * 0x1000, 0x1000, ShareFlags(write)).flags == {P, U, NX} + (if write then {W} else {});
  }

  /** Is any of the pages mapped? */
  method AnyMapped(pt: Tables, root: nat, va: nat, n: nat) returns (any: bool)
    requires Fits(va, n)
    ensures any <==> exists i: nat :: i < n && Lookup(pt.mem, root, 3, PageAt(va, i)).Some?
  {
    any := false;
    for i := 0 to n
      invariant !any && forall j: nat | j < i :: Lookup(pt.mem, root, 3, PageAt(va, j)).None?
    {
      PageFits(va, n, i);
      if Query(pt.mem, root, PageAt(va, i)).Some? {
        any := true;
        return;
      }
    }
  }

  /** Takes the pages out again that were mapped before one could not be. */
  method Undo(pt: Tables, root: nat, va: nat, frames: seq<nat>, write: bool, k: nat, ghost mem0: Memory,
              ghost at0: map<nat, Place>)
    requires pt.Valid() && IsRoot(pt.at, root) && root != pt.kernel && Fits(va, |frames|) && k <= |frames|
    requires Extends(at0, pt.at, root)
    requires Shows(mem0, pt.mem, at0, root, va, Partly(frames, write, 0, k))
    modifies pt`mem
    ensures pt.Valid() && pt.mem.Keys == old(pt.mem).Keys
    ensures Shows(mem0, pt.mem, at0, root, va, Partly(frames, write, k, k))
    ensures Nested(old(pt.mem), pt.at) ==> Nested(pt.mem, pt.at)
  {
    for j := 0 to k
      invariant pt.Valid() && pt.mem.Keys == old(pt.mem).Keys
      invariant Shows(mem0, pt.mem, at0, root, va, Partly(frames, write, j, k))
      invariant Nested(old(pt.mem), pt.at) ==> Nested(pt.mem, pt.at)
    {
      PageFits(va, |frames|, j);
      ghost var mem1 := pt.mem;
      ShowsAt(mem0, mem1, at0, root, va, Partly(frames, write, j, k), j);
      var st, pa, size;
      ghost var found;
      st, pa, size, found := pt.Unmap(root, PageAt(va, j));
      assert found == Shared(frames[j], write);
      Shown(mem0, mem1, pt.mem, at0, pt.at, pt.kernel, root, va, Partly(frames, write, j, k), j, None);
      assert Partly(frames, write, j, k)[j := None] == Partly(frames, write, j + 1, k);
    }
  }

  lemma ShowsMoved(mem0: Memory, mem: Memory, mem': Memory, at0: map<nat, Place>, at: map<nat, Place>, root: nat,
                   va: nat, found: seq<Option<Leaf>>)
    requires Shows(mem0, mem, at0, root, va, found) && SameWalks(at, mem, mem') && Extends(at0, at, root)
    requires IsRoot(at, root)
    ensures Shows(mem0, mem', at0, root, va, found)
  {
    assert ShowKey(0, mem0, mem, found);
    forall r, w: nat | Ask(r, w) && IsRoot(at0, r) && !(r == root && InPages(va, |found|, w))
      ensures Lookup(mem', r, 3, w) == Lookup(mem0, r, 3, w)
    {
      assert AskTable(r);
    }
  }

  lemma PartlyNext(frames: seq<nat>, write: bool, k: nat)
    requires k < |frames|
    ensures Partly(frames, write, 0, k)[k := Some(Shared(frames[k], write))] == Partly(frames, write, 0, k + 1)
  {
  }

  lemma FrameArgs(va: nat, n: nat, k: nat, frame: nat, write: bool)
    requires Fits(va, n) && k < n && frame * 0x1000 < PHYS_MAX
    ensures MapArgs(PageAt(va, k), frame * 0x1000, 0x1000, ShareFlags(write)) == PtOk
  {
    PageFits(va, n, k);
  }

  /** One page of a memory object. */
  method MapFrame(pt: Tables, root: nat, va: nat, frames: seq<nat>, write: bool, k: nat, ghost mem0: Memory,
                  ghost at0: map<nat, Place>)
    returns (ok: bool)
    requires pt.Valid() && IsRoot(pt.at, root) && root != pt.kernel && Fits(va, |frames|) && Extends(at0, pt.at, root)
    requires k < |frames| && frames[k] * 0x1000 < PHYS_MAX
    requires Shows(mem0, pt.mem, at0, root, va, Partly(frames, write, 0, k))
    modifies pt, pt.pmm, pt.pmm.used
    ensures pt.Valid() && Extends(old(pt.at), pt.at, root)
    ensures pt.pmm.Free() + pt.mem.Keys == old(pt.pmm.Free()) + old(pt.mem).Keys
    ensures Shows(mem0, pt.mem, at0, root, va, Partly(frames, write, 0, if ok then k + 1 else k))
    ensures (!ok ==> pt.pmm.Free() == {}) && (Nested(old(pt.mem), old(pt.at)) ==> Nested(pt.mem, pt.at))
  {
    PageFits(va, |frames|, k);
    ghost var mem1, at1 := pt.mem, pt.at;
    ghost var found := Partly(frames, write, 0, k);
    ShowsAt(mem0, mem1, at0, root, va, found, k);
    FrameArgs(va, |frames|, k, frames[k], write);
    var st := pt.Map(root, PageAt(va, k), frames[k] * 0x1000, 0x1000, ShareFlags(write));
    assert GrantKey(0, pt.mem, root, PageAt(va, k));
    ok := st == PtOk;
    if ok {
      Shown(mem0, mem1, pt.mem, at0, at1, pt.kernel, root, va, found, k, Some(Shared(frames[k], write)));
      PartlyNext(frames, write, k);
    } else {
      ShowsMoved(mem0, mem1, pt.mem, at0, at1, root, va, found);
    }
  }

  /** Maps the pages one by one, until one cannot be. */
  method MapFrames(pt: Tables, root: nat, va: nat, frames: seq<nat>, write: bool, ghost mem0: Memory,
                   ghost at0: map<nat, Place>) returns (k: nat)
    requires pt.Valid() && IsRoot(pt.at, root) && root != pt.kernel && Fits(va, |frames|) && mem0 == pt.mem
    requires at0 == pt.at
    requires (forall f | f in frames :: f * 0x1000 < PHYS_MAX)
    requires Shows(mem0, mem0, at0, root, va, Partly(frames, write, 0, 0))
    modifies pt, pt.pmm, pt.pmm.used
    ensures pt.Valid() && Extends(at0, pt.at, root) && IsRoot(pt.at, root) && k <= |frames|
    ensures pt.pmm.Free() + pt.mem.Keys == old(pt.pmm.Free()) + mem0.Keys
    ensures Shows(mem0, pt.mem, at0, root, va, Partly(frames, write, 0, k)) && (k < |frames| ==> pt.pmm.Free() == {})
    ensures Nested(mem0, at0) ==> Nested(pt.mem, pt.at)
  {
    k := 0;
    while k < |frames|
      invariant pt.Valid() && Extends(at0, pt.at, root) && IsRoot(pt.at, root) && k <= |frames|
      invariant pt.pmm.Free() + pt.mem.Keys == old(pt.pmm.Free()) + mem0.Keys
      invariant Shows(mem0, pt.mem, at0, root, va, Partly(frames, write, 0, k))
      invariant Nested(mem0, at0) ==> Nested(pt.mem, pt.at)
    {
      assert frames[k] in frames;
      ghost var at1 := pt.at;
      var ok := MapFrame(pt, root, va, frames, write, k, mem0, at0);
      ExtendsTrans(at0, at1, pt.at, root);
      assert AskTable(root);
      if !ok {
        return;
      }
      k := k + 1;
    }
  }

  /** All pages, where none is mapped. */
  method MapAll(pt: Tables, root: nat, va: nat, frames: seq<nat>, write: bool, ghost home: map<nat, nat>)
    returns (st: VmoStatus)
    requires pt.Valid() && IsRoot(pt.at, root) && root != pt.kernel && forall f | f in frames :: f * 0x1000 < PHYS_MAX
    requires SpaceOk(pt.mem, pt.pmm.Free(), root, home) && Fits(va, |frames|)
    requires forall i: nat | i < |frames| :: Lookup(pt.mem, root, 3, PageAt(va, i)) == None
    modifies pt, pt.pmm, pt.pmm.used
    ensures pt.Valid() && Extends(old(pt.at), pt.at, root) && SpaceOk(pt.mem, pt.pmm.Free(), root, home)
    ensures Account(pt.mem, pt.pmm.Free(), home) == old(Account(pt.mem, pt.pmm.Free(), home))
    ensures st == VmoOk || (st == VmoNoMemory && pt.pmm.Free() == {})
    ensures if st == VmoOk then Shows(old(pt.mem), pt.mem, old(pt.at), root, va, Leaves(frames, write))
            else SameWalks(old(pt.at), old(pt.mem), pt.mem)
    ensures Nested(old(pt.mem), old(pt.at)) ==> Nested(pt.mem, pt.at)
  {
    ghost var mem0, at0, none := pt.mem, pt.at, Partly(frames, write, 0, 0);
    ShowsNone(mem0, at0, root, va, none);
    var k := MapFrames(pt, root, va, frames, write, mem0, at0);
    if k < |frames| {
      Undo(pt, root, va, frames, write, k, mem0, at0);
      assert Partly(frames, write, k, k) == none;
      ShowsAgain(mem0, pt.mem, at0, root, va, none);
      SpaceShares(mem0, old(pt.pmm.Free()), pt.mem, pt.pmm.Free(), at0, root, home, va, none);
      return VmoNoMemory;
    }
    assert Partly(frames, write, 0, k) == Leaves(frames, write);
    SpaceShares(mem0, old(pt.pmm.Free()), pt.mem, pt.pmm.Free(), at0, root, home, va, Leaves(frames, write));
    return VmoOk;
  }

  /** All pages of a memory object are mapped, in order, or no translation changes. */
  method MapObject(pt: Tables, root: nat, va: nat, frames: seq<nat>, write: bool, ghost home: map<nat, nat>)
    returns (st: VmoStatus)
    requires pt.Valid() && IsRoot(pt.at, root) && root != pt.kernel && forall f | f in frames :: f * 0x1000 < PHYS_MAX
    requires SpaceOk(pt.mem, pt.pmm.Free(), root, home)
    modifies pt, pt.pmm, pt.pmm.used
    ensures pt.Valid() && Extends(old(pt.at), pt.at, root) && SpaceOk(pt.mem, pt.pmm.Free(), root, home)
    ensures Account(pt.mem, pt.pmm.Free(), home) == old(Account(pt.mem, pt.pmm.Free(), home))
    ensures st == VmoInvalid <==> va % 0x1000 != 0
    ensures st == VmoRange <==> va % 0x1000 == 0 && !Fits(va, |frames|)
    ensures st == VmoExists <==> Fits(va, |frames|) && exists i: nat ::
              i < |frames| && Lookup(old(pt.mem), root, 3, PageAt(va, i)).Some?
    ensures st == VmoNoMemory ==> pt.pmm.Free() == {}
    ensures if st == VmoOk then Shows(old(pt.mem), pt.mem, old(pt.at), root, va, Leaves(frames, write))
            else SameWalks(old(pt.at), old(pt.mem), pt.mem)
    ensures Nested(old(pt.mem), old(pt.at)) ==> Nested(pt.mem, pt.at)
  {
    if va % 0x1000 != 0 {
      return VmoInvalid;
    }
    if !UserAccess.RangeOk(va, 0x1000 * |frames|) {
      return VmoRange;
    }
    var any := AnyMapped(pt, root, va, |frames|);
    if any {
      return VmoExists;
    }
    st := MapAll(pt, root, va, frames, write, home);
  }

  // ---- a whole life ----

  /** The root a table hangs on is itself a table. */
  lemma {:induction false} RootIn(mem: Memory, at: map<nat, Place>, kernel: nat, s: nat)
    requires TreeOk(mem, at, kernel) && s in at
    ensures at[s].root in at
    decreases |at[s].path|
  {
    assert TableOk(mem, at, kernel, s) && Attached(mem, at, s);
    if at[s].path != [] {
      RootIn(mem, at, kernel, at[s].up);
    }
  }

  /** Taking away what was added below a new root leaves the tables as they were. */
  lemma BackAgain(mem0: Memory, at0: map<nat, Place>, kernel: nat, root: nat, at: map<nat, Place>)
    requires mem0.Keys == at0.Keys && Tree(mem0, at0, kernel) && root !in at0
    requires Extends(at0[root := Place(root, [], 0)], at, root)
    ensures at - TablesOf(at, root) == at0
  {
    OpenTree(mem0, at0, kernel);
    forall t | t in at0 ensures t in at && at[t] == at0[t] && at[t].root != root {
      assert AskTable(t);
      RootIn(mem0, at0, kernel, t);
    }
    forall t | t in at && at[t].root != root ensures t in at0 {
      assert AskTable(t);
    }
  }

  lemma ExtendsTrans(at: map<nat, Place>, at1: map<nat, Place>, at2: map<nat, Place>, root: nat)
    requires Extends(at, at1, root) && Extends(at1, at2, root)
    ensures Extends(at, at2, root)
  {
  }

  ghost predicate LifeKey(k: nat, mem: Memory, at: map<nat, Place>, free: set<nat>, home: map<nat, nat>) {
    true
  }

  /** In the middle of its life: nothing outside the space has changed, and no page is lost. */
  ghost predicate Alive(mem0: Memory, at0: map<nat, Place>, free0: set<nat>, mem: Memory, at: map<nat, Place>,
                        free: set<nat>, root: nat, home: map<nat, nat>) {
    forall k {:trigger LifeKey(k, mem, at, free, home)} :: LifeKey(k, mem, at, free, home) ==>
      && root !in at0 && Extends(at0[root := Place(root, [], 0)], at, root) && OthersSame(at0, mem0, mem, root)
      && Account(mem, free, home) == free0 + mem0.Keys
  }

  lemma Born(mem0: Memory, at0: map<nat, Place>, free0: set<nat>, mem: Memory, root: nat)
    requires root in free0 && root !in at0 && SameWalks(at0, mem0, mem) && mem0.Keys == at0.Keys
    requires mem.Keys == at0.Keys + {root}
    ensures Alive(mem0, at0, free0, mem, at0[root := Place(root, [], 0)], free0 - {root}, root, map[])
  {
    assert (free0 - {root}) + mem.Keys + {} == free0 + mem0.Keys;
  }

  lemma Grows(mem0: Memory, at0: map<nat, Place>, free0: set<nat>, mem: Memory, at: map<nat, Place>, free: set<nat>,
              home: map<nat, nat>, mem': Memory, at': map<nat, Place>, free': set<nat>, home': map<nat, nat>, root: nat)
    requires Alive(mem0, at0, free0, mem, at, free, root, home)
    requires Extends(at, at', root) && Account(mem', free', home') == Account(mem, free, home)
    requires OthersSame(at, mem, mem', root)
    ensures Alive(mem0, at0, free0, mem', at', free', root, home')
  {
    assert LifeKey(0, mem, at, free, home);
    ExtendsTrans(at0[root := Place(root, [], 0)], at, at', root);
    forall r, w: nat | Ask(r, w) && IsRoot(at0, r) && r != root ensures Lookup(mem', r, 3, w) == Lookup(mem0, r, 3, w) {
      assert AskTable(r);
    }
  }

  lemma Died(mem0: Memory, at0: map<nat, Place>, free0: set<nat>, mem: Memory, at: map<nat, Place>, free: set<nat>,
             home: map<nat, nat>, mem': Memory, at': map<nat, Place>, free': set<nat>, kernel: nat, root: nat)
    requires mem0.Keys == at0.Keys && Tree(mem0, at0, kernel) && free0 !! mem0.Keys && mem.Keys == at.Keys
    requires mem'.Keys == at'.Keys
    requires Alive(mem0, at0, free0, mem, at, free, root, home) && SpaceOk(mem, free, root, home) && free' !! mem'.Keys
    requires at' == at - TablesOf(at, root) && free' == free + TablesOf(at, root) + home.Keys
    requires OthersSame(at, mem, mem', root)
    ensures at' == at0 && free' == free0 && SameWalks(at0, mem0, mem')
  {
    assert LifeKey(0, mem, at, free, home);
    BackAgain(mem0, at0, kernel, root, at);
    assert free' + mem'.Keys == free0 + mem0.Keys by {
      assert at.Keys == at'.Keys + TablesOf(at, root);
    }
    forall r, w: nat | Ask(r, w) && IsRoot(at0, r) ensures Lookup(mem', r, 3, w) == Lookup(mem0, r, 3, w) {
      assert AskTable(r);
    }
  }

  /** What a task asks for: a new page of its own, or a memory object's pages. */
  datatype Want = Fresh(va: nat, flags: set<nat>) | Object(va: nat, frames: seq<nat>, write: bool)

  predicate WantOk(x: Want) {
    match x
    case Fresh(va, _) => UserSlot(va)
    case Object(_, frames, _) => forall f | f in frames :: f * 0x1000 < PHYS_MAX
  }

  /** The answer to a request. */
  datatype Outcome = FreshPage(made: NewStatus, page: nat) | Shares(shared: VmoStatus)

  /** The space at one moment: memory, tables, free pages, and where its own pages are. */
  datatype Moment = Moment(mem: Memory, at: map<nat, Place>, free: set<nat>, home: map<nat, nat>)

  /** Its tables are trees, and the entries above a leaf grant what the leaf does. */
  ghost predicate Ordered(m: Moment, kernel: nat) {
    m.mem.Keys == m.at.Keys && Tree(m.mem, m.at, kernel) && Nested(m.mem, m.at)
  }

  /** At every such moment, every space is permitted at an address exactly what the leaf there says. */
  lemma RightsOfLeaf(m: Moment, kernel: nat, r: nat, va: nat)
    requires Ordered(m, kernel) && IsRoot(m.at, r)
    ensures var leaf := Lookup(m.mem, r, 3, va);
            Allowed(m.mem, r, 3, va) == if leaf.Some? then leaf.value.entry.flags * RIGHTS else {}
  {
    OpenTree(m.mem, m.at, kernel);
    AllowedIff(m.mem, m.at, kernel, r, 3, va);
  }

  /** What one request did, from one moment to the next. */
  ghost predicate Did(kernel: nat, root: nat, m: Moment, m': Moment, x: Want, y: Outcome) {
    match x
    case Fresh(va, flags) =>
      && y.FreshPage? && y.made == NewOutcome(m.mem, root, va, y.page, flags, |m.free|)
      && if y.made == NewOk
         then
           && y.page in m.free && m'.home == m.home[y.page := va]
           && NewPageAt(m.mem, m'.mem, m.at, kernel, root, va, y.page, flags)
         else m'.home == m.home && SameWalks(m.at, m.mem, m'.mem)
    case Object(va, frames, write) =>
      && y.Shares? && m'.home == m.home
      && (y.shared == VmoInvalid <==> va % 0x1000 != 0)
      && (y.shared == VmoRange <==> va % 0x1000 == 0 && !Fits(va, |frames|))
      && (y.shared == VmoExists <==>
            && Fits(va, |frames|)
            && exists i: nat :: i < |frames| && Lookup(m.mem, root, 3, PageAt(va, i)).Some?)
      && (y.shared == VmoNoMemory ==> m'.free == {})
      && if y.shared == VmoOk then Shows(m.mem, m'.mem, m.at, root, va, Leaves(frames, write))
         else SameWalks(m.at, m.mem, m'.mem)
  }

  /** The requests with their answers, moment by moment from the first one. */
  ghost predicate Course(kernel: nat, root: nat, trail: seq<Moment>, wants: seq<Want>, answers: seq<Outcome>) {
    && |wants| == |answers| && |trail| == |wants| + 1
    && forall i | 0 <= i < |wants| :: Did(kernel, root, trail[i], trail[i + 1], wants[i], answers[i])
  }

  lemma CourseMore(kernel: nat, root: nat, trail: seq<Moment>, wants: seq<Want>, answers: seq<Outcome>, m: Moment,
                   x: Want, y: Outcome)
    requires Course(kernel, root, trail, wants, answers) && Did(kernel, root, trail[|wants|], m, x, y)
    ensures Course(kernel, root, trail + [m], wants + [x], answers + [y])
  {
    var trail', wants', answers' := trail + [m], wants + [x], answers + [y];
    forall i | 0 <= i < |wants'| ensures Did(kernel, root, trail'[i], trail'[i + 1], wants'[i], answers'[i]) {
      if i < |wants| {
        assert Did(kernel, root, trail[i], trail[i + 1], wants[i], answers[i]);
      }
    }
  }

  /** A life that began: an empty space, the requests and their answers, and in the end a report of every
      leaf there was, the space's own pages among them once each. */
  ghost predicate Lived(mem0: Memory, at0: map<nat, Place>, free0: set<nat>, kernel: nat, root: nat, trail: seq<Moment>,
                        wants: seq<Want>, answers: seq<Outcome>, log: seq<Report>, xs: seq<Spot>) {
    && Course(kernel, root, trail, wants, answers) && root in free0 && root !in at0
    && SharesKernel(trail[0].mem, mem0, kernel, root) && trail[0].free == free0 - {root} && trail[0].home == map[]
    && var last := trail[|wants|];
       && SlotLeaves(last.mem, last.at, root, 1, 256, xs) && Reports(last.mem, last.at, xs, log)
       && OwnPages(log) == last.home.Keys && OwnOnce(log)
  }

  /** All the requests, in order, of a space that has no pages yet. */
  method AnswerAll(pt: Tables, root: nat, wants: seq<Want>, ghost mem0: Memory, ghost at0: map<nat, Place>,
                   ghost free0: set<nat>)
    returns (answers: seq<Outcome>, ghost home: map<nat, nat>, ghost trail: seq<Moment>)
    requires pt.Valid() && IsRoot(pt.at, root) && root != pt.kernel && SpaceOk(pt.mem, pt.pmm.Free(), root, map[])
    requires Alive(mem0, at0, free0, pt.mem, pt.at, pt.pmm.Free(), root, map[]) && forall x | x in wants :: WantOk(x)
    modifies pt, pt.pmm, pt.pmm.used
    ensures pt.Valid() && IsRoot(pt.at, root) && SpaceOk(pt.mem, pt.pmm.Free(), root, home) && AllAllotted(pt, home)
    ensures Alive(mem0, at0, free0, pt.mem, pt.at, pt.pmm.Free(), root, home)
    ensures Course(pt.kernel, root, trail, wants, answers)
    ensures trail[0] == old(Moment(pt.mem, pt.at, pt.pmm.Free(), map[]))
    ensures trail[|wants|] == Moment(pt.mem, pt.at, pt.pmm.Free(), home)
    ensures Nested(old(pt.mem), old(pt.at)) ==> forall m <- trail :: Ordered(m, pt.kernel)
  {
    answers, home, trail := [], map[], [Moment(pt.mem, pt.at, pt.pmm.Free(), map[])];
    for i := 0 to |wants|
      invariant pt.Valid() && IsRoot(pt.at, root) && SpaceOk(pt.mem, pt.pmm.Free(), root, home) && AllAllotted(pt, home)
      invariant Alive(mem0, at0, free0, pt.mem, pt.at, pt.pmm.Free(), root, home)
      invariant Course(pt.kernel, root, trail, wants[..i], answers)
      invariant trail[0] == old(Moment(pt.mem, pt.at, pt.pmm.Free(), map[]))
      invariant trail[i] == Moment(pt.mem, pt.at, pt.pmm.Free(), home)
      invariant Nested(old(pt.mem), old(pt.at)) ==> Nested(pt.mem, pt.at) && forall m <- trail :: Ordered(m, pt.kernel)
    {
      var y;
      y, home := Step(pt, root, wants[i], home, mem0, at0, free0);
      ghost var m := Moment(pt.mem, pt.at, pt.pmm.Free(), home);
      CourseMore(pt.kernel, root, trail, wants[..i], answers, m, wants[i], y);
      assert wants[..i] + [wants[i]] == wants[..i + 1];
      answers, trail := answers + [y], trail + [m];
    }
    assert wants[..|wants|] == wants;
  }

  /** From creation through any maps, failed ones included, to destruction: the free pages, the tables and
      every other space's translations are what they were. */
  method Life(pt: Tables, wants: seq<Want>)
    returns (root: nat, answers: seq<Outcome>, log: seq<Report>, ghost trail: seq<Moment>, ghost xs: seq<Spot>)
    requires pt.Valid() && forall x | x in wants :: WantOk(x)
    modifies pt, pt.pmm, pt.pmm.used
    ensures pt.Valid() && pt.pmm.Free() == old(pt.pmm.Free()) && pt.at == old(pt.at) && pt.count == old(pt.count)
    ensures SameWalks(old(pt.at), old(pt.mem), pt.mem)
    ensures root == 0 <==> old(pt.pmm.Free()) == {}
    ensures root == 0 ==> answers == [] && log == []
    ensures root != 0 ==>
              Lived(old(pt.mem), old(pt.at), old(pt.pmm.Free()), pt.kernel, root, trail, wants, answers, log, xs)
    ensures Nested(old(pt.mem), old(pt.at)) ==> Nested(pt.mem, pt.at) && forall m <- trail :: Ordered(m, pt.kernel)
  {
    ghost var mem0, at0, free0 := pt.mem, pt.at, pt.pmm.Free();
    answers, log, trail, xs := [], [], [], [];
    pt.Apart();
    root := Create(pt);
    if root == 0 {
      pt.Apart();
      return;
    }
    Born(mem0, at0, free0, pt.mem, root);
    NoneOwned(pt.mem, pt.pmm.Free(), mem0, pt.kernel, root);
    answers, log, trail, xs := LiveAndDie(pt, root, wants, mem0, at0, free0);
    pt.Apart();
  }

  /** A life from the empty space on. */
  method LiveAndDie(pt: Tables, root: nat, wants: seq<Want>, ghost mem0: Memory, ghost at0: map<nat, Place>,
                    ghost free0: set<nat>)
    returns (answers: seq<Outcome>, log: seq<Report>, ghost trail: seq<Moment>, ghost xs: seq<Spot>)
    requires pt.Valid() && IsRoot(pt.at, root) && root != pt.kernel && SpaceOk(pt.mem, pt.pmm.Free(), root, map[])
    requires Alive(mem0, at0, free0, pt.mem, pt.at, pt.pmm.Free(), root, map[]) && forall x | x in wants :: WantOk(x)
    requires mem0.Keys == at0.Keys && Tree(mem0, at0, pt.kernel) && free0 !! mem0.Keys
    modifies pt, pt.pmm, pt.pmm.used
    ensures pt.Valid() && pt.at == at0 && pt.pmm.Free() == free0 && SameWalks(at0, mem0, pt.mem)
    ensures Course(pt.kernel, root, trail, wants, answers)
    ensures trail[0] == old(Moment(pt.mem, pt.at, pt.pmm.Free(), map[]))
    ensures var last := trail[|wants|];
            && SlotLeaves(last.mem, last.at, root, 1, 256, xs) && Reports(last.mem, last.at, xs, log)
            && OwnPages(log) == last.home.Keys && OwnOnce(log)
    ensures Nested(old(pt.mem), old(pt.at)) ==> Nested(pt.mem, pt.at) && forall m <- trail :: Ordered(m, pt.kernel)
  {
    ghost var home: map<nat, nat>;
    answers, home, trail := AnswerAll(pt, root, wants, mem0, at0, free0);
    ghost var mem1, at1, free1 := pt.mem, pt.at, pt.pmm.Free();
    assert Nested(old(pt.mem), old(pt.at)) ==> Ordered(trail[|wants|], pt.kernel);
    log, xs := Destroy(pt, root, home);
    pt.Apart();
    Died(mem0, at0, free0, mem1, at1, free1, home, pt.mem, pt.at, pt.pmm.Free(), pt.kernel, root);
  }

  /** A new space has no pages. */
  lemma NoneOwned(mem: Memory, free: set<nat>, mem0: Memory, kernel: nat, root: nat)
    requires SharesKernel(mem, mem0, kernel, root)
    ensures SpaceOk(mem, free, root, map[])
  {
  }

  /** One request. */
  method Answer(pt: Tables, root: nat, x: Want, ghost home: map<nat, nat>)
    returns (y: Outcome, ghost home': map<nat, nat>)
    requires pt.Valid() && IsRoot(pt.at, root) && root != pt.kernel && WantOk(x)
    requires SpaceOk(pt.mem, pt.pmm.Free(), root, home) && AllAllotted(pt, home)
    modifies pt, pt.pmm, pt.pmm.used
    ensures pt.Valid() && Extends(old(pt.at), pt.at, root) && SpaceOk(pt.mem, pt.pmm.Free(), root, home')
    ensures AllAllotted(pt, home')
    ensures Account(pt.mem, pt.pmm.Free(), home') == old(Account(pt.mem, pt.pmm.Free(), home))
    ensures Did(pt.kernel, root, old(Moment(pt.mem, pt.at, pt.pmm.Free(), home)),
                Moment(pt.mem, pt.at, pt.pmm.Free(), home'), x, y)
    ensures Nested(old(pt.mem), old(pt.at)) ==> Nested(pt.mem, pt.at)
  {
    home' := home;
    match x {
      case Fresh(va, flags) =>
        var st, page;
        st, page, home' := MapNewPage(pt, root, va, flags, home);
        assert GrantKey(0, pt.mem, root, va);
        y := FreshPage(st, page);
      case Object(va, frames, write) =>
        var st := MapObject(pt, root, va, frames, write, home);
        y := Shares(st);
    }
  }

  /** No request touches another space. */
  lemma DidOthers(kernel: nat, root: nat, m: Moment, m': Moment, x: Want, y: Outcome)
    requires Did(kernel, root, m, m', x, y) && WantOk(x) && root != kernel
    ensures OthersSame(m.at, m.mem, m'.mem, root)
  {
    if x.Object? && y.shared == VmoOk {
      ShowsOthers(m.mem, m'.mem, m.at, root, x.va, Leaves(x.frames, x.write));
    }
  }

  method Step(pt: Tables, root: nat, x: Want, ghost home: map<nat, nat>, ghost mem0: Memory, ghost at0: map<nat, Place>,
              ghost free0: set<nat>)
    returns (y: Outcome, ghost home': map<nat, nat>)
    requires pt.Valid() && IsRoot(pt.at, root) && root != pt.kernel && WantOk(x)
    requires SpaceOk(pt.mem, pt.pmm.Free(), root, home) && AllAllotted(pt, home)
    requires Alive(mem0, at0, free0, pt.mem, pt.at, pt.pmm.Free(), root, home)
    modifies pt, pt.pmm, pt.pmm.used
    ensures pt.Valid() && IsRoot(pt.at, root) && SpaceOk(pt.mem, pt.pmm.Free(), root, home') && AllAllotted(pt, home')
    ensures Alive(mem0, at0, free0, pt.mem, pt.at, pt.pmm.Free(), root, home')
    ensures Did(pt.kernel, root, old(Moment(pt.mem, pt.at, pt.pmm.Free(), home)),
                Moment(pt.mem, pt.at, pt.pmm.Free(), home'), x, y)
    ensures Nested(old(pt.mem), old(pt.at)) ==> Nested(pt.mem, pt.at)
  {
    ghost var mem1, at1, free1 := pt.mem, pt.at, pt.pmm.Free();
    y, home' := Answer(pt, root, x, home);
    DidOthers(pt.kernel, root, Moment(mem1, at1, free1, home), Moment(pt.mem, pt.at, pt.pmm.Free(), home'), x, y);
    Grows(mem0, at0, free0, mem1, at1, free1, home, pt.mem, pt.at, pt.pmm.Free(), home', root);
    assert AskTable(root);
  }
}
