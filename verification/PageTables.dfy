/** Mapping, unmapping and translating addresses in page tables taken from the page allocator. */
module PageTables {
  import opened Common
  import opened PhysMem
  import opened PageTree
  import opened PageUpdate
  import opened PageRights
  import opened PageTeardown

  const PHYS_MAX := 0x10_0000_0000_0000

  datatype PtStatus = PtOk | EAlign | ENoncanonical | EExists | ENomem | ENotMapped | EFlags | ESize | ERange

  /** A translation: the physical address of a byte, the flags of its leaf and the page size. */
  datatype Mapping = Mapping(pa: nat, flags: set<nat>, size: nat)

  /** The physical base of a leaf, aligned to its size. */
  function LeafBase(e: Pte, level: nat): nat
    requires level < 4
  {
    e.frame * 0x1000 / Span(level) * Span(level)
  }

  /** What the tables of root say about va. */
  function Query(mem: Memory, root: nat, va: nat): Option<Mapping> {
    if !Canonical(va) then None else
      match Lookup(mem, root, 3, va)
      case None => None
      case Some(Leaf(e, level)) =>
        if level < 4 then Some(Mapping(LeafBase(e, level) + va % Span(level), e.flags, Span(level))) else None
  }

  /** The statements below about every root r and address w are used by asking for a particular pair. */
  ghost predicate Ask(r: nat, w: nat) {
    true
  }

  /** No root's walk finds anything else. */
  ghost predicate SameWalks(at: map<nat, Place>, mem: Memory, mem': Memory) {
    forall r, w: nat {:trigger Ask(r, w)} ::
      Ask(r, w) && IsRoot(at, r) ==> Lookup(mem', r, 3, w) == Lookup(mem, r, 3, w)
  }

  ghost predicate AskTable(t: nat) {
    true
  }

  /** New tables belong below root. */
  ghost predicate Extends(at: map<nat, Place>, at': map<nat, Place>, root: nat) {
    forall t: nat {:trigger AskTable(t)} :: AskTable(t) ==>
      && (t in at ==> t in at' && at'[t] == at[t])
      && (t in at' && t !in at ==> at'[t].root == root && at'[t].path != [])
  }

  /** Nothing that was there has moved, and no root is new. */
  ghost predicate Keeps(at: map<nat, Place>, at': map<nat, Place>) {
    forall t: nat {:trigger AskTable(t)} :: AskTable(t) ==>
      (t in at ==> t in at' && at'[t] == at[t]) && (t in at' && t !in at ==> at'[t].path != [])
  }

  lemma ExtendsKeeps(at: map<nat, Place>, at1: map<nat, Place>, at2: map<nat, Place>, root: nat)
    requires Keeps(at, at1) && Extends(at1, at2, root)
    ensures Keeps(at, at2)
  {
  }

  /** The root on which the tables for va hang: root's own in its own slots, else the kernel's. */
  function Host(kernel: nat, root: nat, va: nat): nat {
    Owner(kernel, root, Index(va, 3))
  }

  /** A shared slot of a task's root is not empty: all of them are filled before there are tasks. */
  ghost predicate Reachable(mem: Memory, kernel: nat, root: nat, va: nat) {
    Host(kernel, root, va) == root || (root in mem && |mem[root]| == 512 && Present(mem[root][Index(va, 3)]))
  }

  /** Root still has every slot it had. */
  ghost predicate StillReachable(mem: Memory, mem': Memory, kernel: nat, root: nat) {
    forall w: nat {:trigger Ask(root, w)} ::
      Ask(root, w) && Reachable(mem, kernel, root, w) ==> Reachable(mem', kernel, root, w)
  }

  /** The walk for va has come to t. */
  ghost predicate Reached(mem: Memory, at: map<nat, Place>, kernel: nat, root: nat, va: nat, level: nat, t: nat)
  {
    && level < 4 && mem.Keys == at.Keys && Tree(mem, at, kernel) && IsRoot(at, root) && Reachable(mem, kernel, root, va)
    && Descend(mem, root, 3, va, level) == Some(t) && t in mem && |mem[t]| == 512
    && at[t].root == (if level == 3 then root else Host(kernel, root, va)) && at[t].path == Path(va)[..3 - level]
  }

  /** Reaching is not disturbed by a change at or below the table reached. */
  lemma {:induction false} DescendKept(mem: Memory, mem': Memory, at: map<nat, Place>, kernel: nat, s: nat, l: nat,
                                       va: nat, level: nat, t0: nat, i0: nat)
    requires TreeOk(mem, at, kernel) && level <= l < 4 && OnWalk(at, s, l, va) && SameBut(mem, mem', t0, i0)
    requires t0 in at && |at[t0].path| >= 3 - level && Descend(mem, s, l, va, level).Some?
    ensures Descend(mem', s, l, va, level) == Descend(mem, s, l, va, level)
    decreases l
  {
    if l > level {
      assert TableOk(mem, at, kernel, s);
      WalkNext(mem, at, kernel, s, l, va);
      DescendKept(mem, mem', at, kernel, mem[s][Index(va, l)].frame, l - 1, va, level, t0, i0);
    }
  }

  /** One level further down. */
  lemma {:induction false} DescendMore(mem: Memory, s: nat, l: nat, va: nat, level: nat)
    requires 0 < level <= l < 4 && Descend(mem, s, l, va, level).Some?
    requires var t := Descend(mem, s, l, va, level).value;
             t in mem && |mem[t]| == 512 && Refers(mem[t][Index(va, level)], level)
    ensures Descend(mem, s, l, va, level - 1) == Some(mem[Descend(mem, s, l, va, level).value][Index(va, level)].frame)
    decreases l
  {
    if l > level {
      DescendMore(mem, mem[s][Index(va, l)].frame, l - 1, va, level);
    }
  }

  lemma ReachedMore(mem: Memory, at: map<nat, Place>, kernel: nat, root: nat, va: nat, level: nat, t: nat)
    requires Reached(mem, at, kernel, root, va, level, t) && level > 0 && Refers(mem[t][Index(va, level)], level)
    ensures Reached(mem, at, kernel, root, va, level - 1, mem[t][Index(va, level)].frame)
  {
    OpenTree(mem, at, kernel);
    DescendMore(mem, root, 3, va, level);
    WalkNext(mem, at, kernel, t, level, va);
    assert TableOk(mem, at, kernel, mem[t][Index(va, level)].frame);
  }

  /** A step of the walk that finds a reference and adds the user flag to it. */
  lemma StepFlags(mem: Memory, at: map<nat, Place>, kernel: nat, root: nat, va: nat, level: nat, t: nat, user: set<nat>)
    requires Reached(mem, at, kernel, root, va, level, t) && level > 0 && user <= {U}
    requires var e := mem[t][Index(va, level)]; Present(e) && PS !in e.flags
    ensures var e := mem[t][Index(va, level)]; var mem' := Put(mem, t, Index(va, level), e.(flags := e.flags + user));
            Reached(mem', at, kernel, root, va, level - 1, e.frame) && SameWalks(at, mem, mem')
            && StillReachable(mem, mem', kernel, root)
  {
    var i := Index(va, level);
    var e := mem[t][i];
    var mem' := Put(mem, t, i, e.(flags := e.flags + user));
    OpenTree(mem, at, kernel);
    assert TableOk(mem, at, kernel, t);
    PutTree(mem, at, kernel, t, i, e.(flags := e.flags + user));
    DescendKept(mem, mem', at, kernel, root, 3, va, level, t, i);
    forall r, w: nat | IsRoot(at, r) ensures Lookup(mem', r, 3, w) == Lookup(mem, r, 3, w) {
      ReferenceSame(mem, mem', at, kernel, r, 3, w, t, i);
    }
    ReachedMore(mem', at, kernel, root, va, level, t);
  }

  /** A step that hangs a new table. */
  lemma StepHang(mem: Memory, at: map<nat, Place>, kernel: nat, root: nat, va: nat, level: nat, t: nat, p: nat,
                 flags: set<nat>)
    requires Reached(mem, at, kernel, root, va, level, t) && level > 0 && !Present(mem[t][Index(va, level)])
    requires p !in mem && P in flags && PS !in flags
    ensures var mem' := Hang(mem, t, Index(va, level), p, flags);
            var at' := at[p := Below(kernel, at[t], t, Index(va, level))];
            && Reached(mem', at', kernel, root, va, level - 1, p) && SameWalks(at, mem, mem')
            && Extends(at, at', Host(kernel, root, va)) && StillReachable(mem, mem', kernel, root)
  {
    var i := Index(va, level);
    var mem', at' := Hang(mem, t, i, p, flags), at[p := Below(kernel, at[t], t, i)];
    OpenTree(mem, at, kernel);
    assert TableOk(mem, at, kernel, t);
    assert at[t].path == [] ==> level == 3;
    HangTree(mem, at, kernel, t, i, p, flags);
    DescendKept(mem, mem', at, kernel, root, 3, va, level, t, i);
    forall r, w: nat | IsRoot(at, r) ensures Lookup(mem', r, 3, w) == Lookup(mem, r, 3, w) {
      HangSame(mem, at, kernel, t, i, p, flags, r, w);
    }
    ReachedMore(mem', at', kernel, root, va, level, t);
  }

  // ---- rights on the way ----

  /** What is for the user belongs into a slot of the space's own. */
  predicate Proper(va: nat, flags: set<nat>) {
    U in flags ==> 1 <= Index(va, 3) <= 255
  }

  ghost predicate GoingKey(k: nat, mem: Memory, at: map<nat, Place>, t: nat) {
    true
  }

  /** The walk for va has come to t, and everything above is open for the user if this is to be (behind a key). */
  ghost predicate Going(mem: Memory, at: map<nat, Place>, va: nat, user: set<nat>, t: nat) {
    forall k {:trigger GoingKey(k, mem, at, t)} :: GoingKey(k, mem, at, t) ==>
      Nested(mem, at) && Proper(va, user) && (U in user ==> t in at && Lit(mem, at, t))
  }

  lemma GoingStart(mem: Memory, at: map<nat, Place>, va: nat, user: set<nat>, root: nat)
    requires IsRoot(at, root)
    ensures Nested(mem, at) && Proper(va, user) ==> Going(mem, at, va, user, root)
  {
  }

  lemma GoingNested(mem: Memory, at: map<nat, Place>, va: nat, user: set<nat>, t: nat)
    requires Going(mem, at, va, user, t)
    ensures Nested(mem, at) && (U in user ==> t in at && Lit(mem, at, t))
  {
    assert GoingKey(0, mem, at, t);
  }

  ghost predicate GrantKey(k: nat, mem: Memory, root: nat, va: nat) {
    true
  }

  /** The processor permits this at va (behind a key). */
  ghost predicate Grants(mem: Memory, root: nat, va: nat, rights: set<nat>) {
    forall k {:trigger GrantKey(k, mem, root, va)} :: GrantKey(k, mem, root, va) ==>
      Allowed(mem, root, 3, va) == rights
  }

  /** Mapping something with these flags at va keeps the rights in order, and gives va its own (behind a key). */
  ghost predicate Grades(mem: Memory, at: map<nat, Place>, mem': Memory, at': map<nat, Place>, root: nat, va: nat,
                         flags: set<nat>, done: bool) {
    forall k {:trigger GrantKey(k, mem', root, va)} :: GrantKey(k, mem', root, va) ==>
      (Nested(mem, at) && Proper(va, flags) ==> Nested(mem', at') && (done ==> Grants(mem', root, va, flags * RIGHTS)))
  }

  lemma GradesSame(mem: Memory, at: map<nat, Place>, mem': Memory, at': map<nat, Place>, root: nat, va: nat,
                   flags: set<nat>, flags': set<nat>, done: bool)
    requires Grades(mem, at, mem', at', root, va, flags, done) && flags * RIGHTS == flags' * RIGHTS
    ensures Grades(mem, at, mem', at', root, va, flags', done)
  {
    assert U in flags <==> U in flags * RIGHTS;
    assert U in flags' <==> U in flags' * RIGHTS;
    assert GrantKey(0, mem', root, va);
  }

  lemma GoingFlags(mem: Memory, at: map<nat, Place>, kernel: nat, root: nat, va: nat, l: nat, t: nat, user: set<nat>)
    requires Reached(mem, at, kernel, root, va, l, t) && l > 0 && user <= {U} && Going(mem, at, va, user, t)
    requires var e := mem[t][Index(va, l)]; Present(e) && PS !in e.flags
    ensures var e := mem[t][Index(va, l)];
            Going(Put(mem, t, Index(va, l), e.(flags := e.flags + user)), at, va, user, e.frame)
  {
    var i := Index(va, l);
    var e := mem[t][i];
    OpenTree(mem, at, kernel);
    assert TableOk(mem, at, kernel, t);
    assert GoingKey(0, mem, at, t);
    if U in user {
      PutNested(mem, at, kernel, t, i, e.(flags := e.flags + user));
      LitNext(mem, at, kernel, root, va, l, t, user);
    } else {
      assert e.flags + user == e.flags && mem[t][i := e] == mem[t];
      assert Put(mem, t, i, e.(flags := e.flags + user)) == mem;
    }
  }

  /** The table behind an entry that has been given the user flag. */
  lemma LitNext(mem: Memory, at: map<nat, Place>, kernel: nat, root: nat, va: nat, l: nat, t: nat, user: set<nat>)
    requires Reached(mem, at, kernel, root, va, l, t) && l > 0 && U in user && 1 <= Index(va, 3) <= 255
    requires var e := mem[t][Index(va, l)]; Present(e) && PS !in e.flags
    ensures var e := mem[t][Index(va, l)];
            e.frame in at && Lit(Put(mem, t, Index(va, l), e.(flags := e.flags + user)), at, e.frame)
  {
    OpenTree(mem, at, kernel);
    assert TableOk(mem, at, kernel, t);
    WalkNext(mem, at, kernel, t, l, va);
    OneWay(mem, at, kernel, t, Index(va, l), mem[t][Index(va, l)].frame);
    PathAt(va, l);
    assert Path(va)[..4 - l][0] == Index(va, 3);
  }

  lemma GoingHang(mem: Memory, at: map<nat, Place>, kernel: nat, root: nat, va: nat, l: nat, t: nat, p: nat,
                  user: set<nat>)
    requires Reached(mem, at, kernel, root, va, l, t) && l > 0 && user <= {U} && Going(mem, at, va, user, t)
    requires !Present(mem[t][Index(va, l)]) && p !in mem
    ensures Going(Hang(mem, t, Index(va, l), p, {P, W} + user), at[p := Below(kernel, at[t], t, Index(va, l))], va,
                  user, p)
  {
    OpenTree(mem, at, kernel);
    assert TableOk(mem, at, kernel, t);
    assert at[t].path == [] ==> l == 3;
    assert GoingKey(0, mem, at, t);
    HangNested(mem, at, kernel, t, Index(va, l), p, {P, W} + user);
    PathAt(va, l);
    assert Path(va)[..4 - l][0] == Index(va, 3);
  }

  /** The addresses that the same entry of a table on `level` serves. */
  ghost predicate SamePage(va: nat, w: nat, level: nat)
    requires level < 4
  {
    Path(w)[..4 - level] == Path(va)[..4 - level]
  }

  /** For canonical addresses: those in the same naturally aligned block. */
  lemma SamePageIff(va: nat, w: nat, level: nat)
    requires level < 4 && Canonical(va) && Canonical(w)
    ensures SamePage(va, w, level) <==> va / Span(level) == w / Span(level)
  {
    PathSpan(va, w, level);
  }

  /** Every walk finds what it found, except in the page of va those that pass through the same host. */
  ghost predicate OnlyPage(mem: Memory, mem': Memory, at: map<nat, Place>, kernel: nat, root: nat, va: nat, level: nat)
    requires level < 4
  {
    forall r, w: nat {:trigger Ask(r, w)} :: Ask(r, w) && IsRoot(at, r) ==>
      !(SamePage(va, w, level) && SameHost(kernel, root, va, r, w)) ==> Lookup(mem', r, 3, w) == Lookup(mem, r, 3, w)
  }

  ghost predicate SameHost(kernel: nat, root: nat, va: nat, r: nat, w: nat) {
    Host(kernel, r, w) == Host(kernel, root, va)
  }

  /** Root's walks in the page of va all find this. */
  ghost predicate PageHolds(mem: Memory, root: nat, va: nat, level: nat, found: Option<Leaf>)
    requires level < 4
  {
    forall w: nat {:trigger Ask(root, w)} :: Ask(root, w) && SamePage(va, w, level) ==> Lookup(mem, root, 3, w) == found
  }

  /** An entry that refers to no table changes to another such: root's walks in its page find it. */
  lemma PutLeafPage(mem: Memory, at: map<nat, Place>, kernel: nat, root: nat, va: nat, level: nat, t: nat, e: Pte,
                    w: nat)
    requires Reached(mem, at, kernel, root, va, level, t) && level < 3 && SamePage(va, w, level)
    requires !Refers(mem[t][Index(va, level)], level) && !Refers(e, level)
    ensures var mem' := Put(mem, t, Index(va, level), e);
            Lookup(mem', root, 3, w) == if Present(e) then Some(Leaf(e, level)) else None
  {
    var i := Index(va, level);
    var mem' := Put(mem, t, i, e);
    OpenTree(mem, at, kernel);
    PathAt(va, level);
    PathAt(w, level);
    assert Path(w)[..3 - level] == Path(w)[..4 - level][..3 - level] == Path(va)[..3 - level];
    DescendKept(mem, mem', at, kernel, root, 3, va, level, t, i);
    DescendPrefix(mem', root, 3, va, w, level);
    DescendLookup(mem', root, 3, w, level);
    assert Index(w, level) == Path(w)[..4 - level][3 - level] == i;
  }

  /** ... and all others find what they found. */
  lemma PutLeafElsewhere(mem: Memory, at: map<nat, Place>, kernel: nat, root: nat, va: nat, level: nat, t: nat, e: Pte,
                         r: nat, w: nat)
    requires Reached(mem, at, kernel, root, va, level, t) && level < 3 && IsRoot(at, r)
    requires !(SamePage(va, w, level) && SameHost(kernel, root, va, r, w))
    ensures Lookup(Put(mem, t, Index(va, level), e), r, 3, w) == Lookup(mem, r, 3, w)
  {
    var i := Index(va, level);
    OpenTree(mem, at, kernel);
    PathAt(va, level);
    if at[t].path + [i] <= Path(w) {
      assert Path(w)[..4 - level] == at[t].path + [i];
    }
    RootSame(mem, Put(mem, t, i, e), at, kernel, r, w, t, i);
  }

  lemma PutLeaf(mem: Memory, at: map<nat, Place>, kernel: nat, root: nat, va: nat, level: nat, t: nat, e: Pte)
    requires Reached(mem, at, kernel, root, va, level, t) && level < 3
    requires !Refers(mem[t][Index(va, level)], level) && !Refers(e, level)
    ensures var mem' := Put(mem, t, Index(va, level), e);
            && Tree(mem', at, kernel) && OnlyPage(mem, mem', at, kernel, root, va, level)
            && PageHolds(mem', root, va, level, if Present(e) then Some(Leaf(e, level)) else None)
            && StillReachable(mem, mem', kernel, root)
  {
    var mem' := Put(mem, t, Index(va, level), e);
    OpenTree(mem, at, kernel);
    PutTree(mem, at, kernel, t, Index(va, level), e);
    forall r, w: nat | IsRoot(at, r)
      ensures r == root && SamePage(va, w, level) ==>
                Lookup(mem', r, 3, w) == if Present(e) then Some(Leaf(e, level)) else None
      ensures !(SamePage(va, w, level) && SameHost(kernel, root, va, r, w)) ==>
                Lookup(mem', r, 3, w) == Lookup(mem, r, 3, w)
    {
      if r == root && SamePage(va, w, level) {
        PutLeafPage(mem, at, kernel, root, va, level, t, e, w);
      }
      if !(SamePage(va, w, level) && SameHost(kernel, root, va, r, w)) {
        PutLeafElsewhere(mem, at, kernel, root, va, level, t, e, r, w);
      }
    }
  }

  /** What a walk down root may do on the way: new tables below root, from free pages, and no
      translation changed. */
  ghost predicate Grown(at: map<nat, Place>, mem: Memory, free: set<nat>, at': map<nat, Place>, mem': Memory,
                        free': set<nat>, kernel: nat, root: nat, va: nat) {
    && SameWalks(at, mem, mem') && Extends(at, at', Host(kernel, root, va)) && StillReachable(mem, mem', kernel, root)
    && free' + mem'.Keys == free + mem.Keys
  }

  lemma GrownTrans(at: map<nat, Place>, mem: Memory, free: set<nat>, at1: map<nat, Place>, mem1: Memory,
                   free1: set<nat>,
                   at2: map<nat, Place>, mem2: Memory, free2: set<nat>, kernel: nat, root: nat, va: nat)
    requires Grown(at, mem, free, at1, mem1, free1, kernel, root, va)
    requires Grown(at1, mem1, free1, at2, mem2, free2, kernel, root, va)
    ensures Grown(at, mem, free, at2, mem2, free2, kernel, root, va)
  {
    forall r, w: nat | IsRoot(at, r) ensures Lookup(mem2, r, 3, w) == Lookup(mem, r, 3, w) {
      assert Ask(r, w) && AskTable(r);
    }
  }

  lemma Moved(free: set<nat>, keys: set<nat>, free': set<nat>, keys': set<nat>, p: nat)
    requires p in free && free' == free - {p} && keys' == keys + {p} && keys !! free
    ensures free' + keys' == free + keys && keys' !! free' && |keys'| == |keys| + 1
  {
  }

  lemma Shifted(free: set<nat>, keys: set<nat>, p: nat)
    requires p in free
    ensures (free - {p}) + (keys + {p}) == free + keys
  {
  }

  /** The walk for va ends at a leaf in table t. */
  ghost predicate LeafAt(mem: Memory, root: nat, va: nat, level: nat, t: nat) {
    && level < 3 && Descend(mem, root, 3, va, level) == Some(t) && t in mem && |mem[t]| == 512
    && var e := mem[t][Index(va, level)];
       Present(e) && IsLeaf(e, level) && Lookup(mem, root, 3, va) == Some(Leaf(e, level))
  }

  lemma LeafStep(mem: Memory, at: map<nat, Place>, kernel: nat, root: nat, va: nat, level: nat, t: nat)
    requires TreeOk(mem, at, kernel) && level < 4 && OnWalk(at, t, level, va)
    requires Descend(mem, root, 3, va, level) == Some(t)
    requires Lookup(mem, root, 3, va) == Lookup(mem, t, level, va)
    ensures t in mem && |mem[t]| == 512
    ensures var e := mem[t][Index(va, level)];
            && (Present(e) && IsLeaf(e, level) ==> LeafAt(mem, root, va, level, t))
            && (Refers(e, level) ==>
                  && level > 0 && OnWalk(at, e.frame, level - 1, va)
                  && Descend(mem, root, 3, va, level - 1) == Some(e.frame)
                  && Lookup(mem, root, 3, va) == Lookup(mem, e.frame, level - 1, va))
  {
    assert TableOk(mem, at, kernel, t);
    assert EntryOk(mem, at, kernel, t, Index(va, level));
    if level > 0 {
      WalkNext(mem, at, kernel, t, level, va);
      if Refers(mem[t][Index(va, level)], level) {
        DescendMore(mem, root, 3, va, level);
      }
    }
  }

  lemma LeafReached(mem: Memory, at: map<nat, Place>, kernel: nat, root: nat, va: nat, level: nat, t: nat)
    requires mem.Keys == at.Keys && Tree(mem, at, kernel) && IsRoot(at, root)
    requires LeafAt(mem, root, va, level, t)
    ensures Reached(mem, at, kernel, root, va, level, t) && !Refers(mem[t][Index(va, level)], level)
  {
    OpenTree(mem, at, kernel);
    RootDescend(mem, at, kernel, root, va, level);
  }

  /** What the entry reached says about va. */
  lemma WalkEnds(mem: Memory, at: map<nat, Place>, kernel: nat, root: nat, va: nat, level: nat, t: nat)
    requires Reached(mem, at, kernel, root, va, level, t)
    ensures var e := mem[t][Index(va, level)];
            && (!Present(e) ==> Lookup(mem, root, 3, va) == None)
            && (Present(e) && IsLeaf(e, level) ==> Lookup(mem, root, 3, va) == Some(Leaf(e, level)))
            && (Present(e) && PS in e.flags && level > 0 ==> IsLeaf(e, level))
  {
    DescendLookup(mem, root, 3, va, level);
    OpenTree(mem, at, kernel);
    assert TableOk(mem, at, kernel, t);
    assert EntryOk(mem, at, kernel, t, Index(va, level));
  }

  // ---- what is in the way of a page ----

  /** The way down to `level` is blocked by something present, or open but for so many missing tables. */
  datatype Way = Blocked | Open(missing: nat)

  function WayTo(mem: Memory, t: nat, l: nat, va: nat, level: nat): Way
    requires level <= l < 4
    decreases l
  {
    if t !in mem || |mem[t]| != 512 then Open(l - level) else
      var e := mem[t][Index(va, l)];
      if !Present(e) then Open(l - level)
      else if l == level || PS in e.flags then Blocked
      else WayTo(mem, e.frame, l - 1, va, level)
  }

  /** A page cannot be put where va is translated, nor a large one where a table hangs, even an empty one. */
  predicate Taken(mem: Memory, root: nat, va: nat, level: nat) {
    Lookup(mem, root, 3, va).Some? || (level == 1 && Descend(mem, root, 3, va, 0).Some?)
  }

  lemma {:induction false} WayTaken(mem: Memory, at: map<nat, Place>, kernel: nat, t: nat, l: nat, va: nat, level: nat)
    requires TreeOk(mem, at, kernel) && level <= l < 4 && level < 2 && OnWalk(at, t, l, va)
    ensures WayTo(mem, t, l, va, level) == Blocked <==>
              Lookup(mem, t, l, va).Some? || (level == 1 && Descend(mem, t, l, va, 0).Some?)
    decreases l
  {
    assert TableOk(mem, at, kernel, t);
    assert EntryOk(mem, at, kernel, t, Index(va, l));
    if l > level && Refers(mem[t][Index(va, l)], l) {
      WalkNext(mem, at, kernel, t, l, va);
      WayTaken(mem, at, kernel, mem[t][Index(va, l)].frame, l - 1, va, level);
    }
  }

  /** A change further up does not matter. */
  lemma {:induction false} WaySame(mem: Memory, mem': Memory, at: map<nat, Place>, kernel: nat, t: nat, l: nat, va: nat,
                                   level: nat, t0: nat, i0: nat)
    requires TreeOk(mem, at, kernel) && level <= l < 4 && OnWalk(at, t, l, va) && SameBut(mem, mem', t0, i0)
    requires t0 in at && |at[t0].path| < 3 - l
    ensures WayTo(mem', t, l, va, level) == WayTo(mem, t, l, va, level)
    decreases l
  {
    assert TableOk(mem, at, kernel, t);
    assert EntryOk(mem, at, kernel, t, Index(va, l));
    if l > level && Refers(mem[t][Index(va, l)], l) {
      WalkNext(mem, at, kernel, t, l, va);
      WaySame(mem, mem', at, kernel, mem[t][Index(va, l)].frame, l - 1, va, level, t0, i0);
    }
  }

  /** What the table reached says, the root says. */
  lemma {:induction false} WayReached(mem: Memory, at: map<nat, Place>, kernel: nat, s: nat, k: nat, va: nat, l: nat,
                                      level: nat)
    requires TreeOk(mem, at, kernel) && level <= l <= k < 4 && OnWalk(at, s, k, va) && Descend(mem, s, k, va, l).Some?
    ensures WayTo(mem, s, k, va, level) == WayTo(mem, Descend(mem, s, k, va, l).value, l, va, level)
    decreases k
  {
    if k > l {
      assert TableOk(mem, at, kernel, s);
      assert EntryOk(mem, at, kernel, s, Index(va, k));
      WalkNext(mem, at, kernel, s, k, va);
      WayReached(mem, at, kernel, mem[s][Index(va, k)].frame, k - 1, va, l, level);
    }
  }

  lemma WayRoot(mem: Memory, at: map<nat, Place>, kernel: nat, root: nat, va: nat, l: nat, t: nat, level: nat)
    requires Reached(mem, at, kernel, root, va, l, t) && level <= l && level < 2
    ensures WayTo(mem, root, 3, va, level) == WayTo(mem, t, l, va, level)
    ensures WayTo(mem, root, 3, va, level) == Blocked <==> Taken(mem, root, va, level)
  {
    OpenTree(mem, at, kernel);
    WayReached(mem, at, kernel, root, 3, va, l, level);
    WayTaken(mem, at, kernel, root, 3, va, level);
  }

  /** A step of the walk that adds a flag: the rest of the way is as it was. */
  lemma WayFlags(mem: Memory, at: map<nat, Place>, kernel: nat, root: nat, va: nat, l: nat, t: nat, user: set<nat>,
                 level: nat)
    requires Reached(mem, at, kernel, root, va, l, t) && level < l && user <= {U}
    requires var e := mem[t][Index(va, l)]; Present(e) && PS !in e.flags
    ensures var e := mem[t][Index(va, l)];
            WayTo(Put(mem, t, Index(va, l), e.(flags := e.flags + user)), e.frame, l - 1, va, level) ==
              WayTo(mem, t, l, va, level)
  {
    var e := mem[t][Index(va, l)];
    OpenTree(mem, at, kernel);
    WalkNext(mem, at, kernel, t, l, va);
    WaySame(mem, Put(mem, t, Index(va, l), e.(flags := e.flags + user)), at, kernel, e.frame, l - 1, va, level, t,
            Index(va, l));
  }

  /** A new table is empty. */
  lemma WayHung(mem: Memory, t: nat, va: nat, l: nat, p: nat, flags: set<nat>, level: nat)
    requires level < l < 4 && t in mem && |mem[t]| == 512 && p !in mem
    ensures WayTo(Hang(mem, t, Index(va, l), p, flags), p, l - 1, va, level) == Open(l - 1 - level)
  {
  }

  /** What becomes of a page with acceptable arguments: something is in the way, the missing tables are more
      than the free pages, or it is mapped. */
  ghost function MapOutcome(mem: Memory, root: nat, va: nat, level: nat, free: nat): PtStatus
    requires level < 2
  {
    if Taken(mem, root, va, level) then EExists
    else
      var way := WayTo(mem, root, 3, va, level);
      if way.Open? && way.missing > free then ENomem else PtOk
  }

  lemma RootReached(mem: Memory, at: map<nat, Place>, kernel: nat, root: nat, va: nat, level: nat)
    requires mem.Keys == at.Keys && Tree(mem, at, kernel) && IsRoot(at, root) && level < 2
    ensures WayTo(mem, root, 3, va, level) == Blocked <==> Taken(mem, root, va, level)
  {
    OpenTree(mem, at, kernel);
    WayTaken(mem, at, kernel, root, 3, va, level);
  }

  /** From one step of the walk to the next: each table made takes a page. */
  ghost predicate WayLess(way: Way, free: nat, way': Way, free': nat) {
    if way == Blocked then way' == Blocked else way'.Open? && way'.missing + free == way.missing + free'
  }

  ghost predicate WalkKey(k: nat, mem: Memory, mem': Memory, root: nat, va: nat) {
    true
  }

  /** What the walk has done so far, having come to t or failed (behind a key). */
  ghost predicate Walked(at: map<nat, Place>, mem: Memory, free: set<nat>, at': map<nat, Place>, mem': Memory,
                         free': set<nat>, kernel: nat, root: nat, va: nat, level: nat, user: set<nat>, t: Option<nat>)
    requires level < 2
  {
    forall k {:trigger WalkKey(k, mem, mem', root, va)} :: WalkKey(k, mem, mem', root, va) ==>
      && Grown(at, mem, free, at', mem', free', kernel, root, va)
      && WayLess(WayTo(mem, root, 3, va, level), |free|, WayTo(mem', root, 3, va, level), |free'|)
      && (Nested(mem, at) && Proper(va, user) ==>
            if t.Some? then Going(mem', at', va, user, t.value) else Nested(mem', at'))
  }

  lemma WalkStart(mem: Memory, at: map<nat, Place>, kernel: nat, free: set<nat>, root: nat, va: nat, level: nat,
                  user: set<nat>)
    requires mem.Keys == at.Keys && Tree(mem, at, kernel) && IsRoot(at, root) && level < 2
    requires Reachable(mem, kernel, root, va)
    ensures Reached(mem, at, kernel, root, va, 3, root)
    ensures Walked(at, mem, free, at, mem, free, kernel, root, va, level, user, Some(root))
  {
    OpenTree(mem, at, kernel);
    assert TableOk(mem, at, kernel, root);
    GoingStart(mem, at, va, user, root);
  }

  /** Why a step of the walk cannot be made. */
  ghost predicate WayStops(way: Way, st: PtStatus) {
    if way == Blocked then st == EExists else st == ENomem && way.missing > 0
  }

  /** First tables are made, then a page is put: together only the page changes. */
  lemma GrownThenPut(at: map<nat, Place>, at1: map<nat, Place>, mem: Memory, mem1: Memory, mem2: Memory, kernel: nat,
                     root: nat, va: nat, level: nat)
    requires level < 4 && SameWalks(at, mem, mem1) && Extends(at, at1, Host(kernel, root, va))
    requires OnlyPage(mem1, mem2, at1, kernel, root, va, level)
    ensures OnlyPage(mem, mem2, at, kernel, root, va, level)
  {
    forall r, w: nat | IsRoot(at, r) && !(SamePage(va, w, level) && SameHost(kernel, root, va, r, w))
      ensures Lookup(mem2, r, 3, w) == Lookup(mem, r, 3, w)
    {
      assert Ask(r, w) && AskTable(r);
    }
  }

  predicate Aligned(x: nat, size: nat) {
    if size == 0x20_0000 then x % 0x20_0000 == 0 else x % 0x1000 == 0
  }

  /** The checks before anything is touched. */
  function MapArgs(va: nat, pa: nat, size: nat, flags: set<nat>): PtStatus {
    if size != 0x1000 && size != 0x20_0000 then ESize
    else if !Aligned(va, size) || !Aligned(pa, size) then EAlign
    else if !Canonical(va) then ENoncanonical
    else if pa >= PHYS_MAX then ERange
    else if !(flags <= LEAF_FLAGS) then EFlags
    else PtOk
  }

  function LevelFor(size: nat): nat {
    if size == 0x20_0000 then 1 else 0
  }

  /** The entry that maps a page. */
  function LeafFor(pa: nat, size: nat, flags: set<nat>): Pte {
    Pte(pa / 0x1000, flags + {P} + (if size == 0x20_0000 then {PS} else {}))
  }

  lemma LeafRights(pa: nat, size: nat, flags: set<nat>)
    ensures LeafFor(pa, size, flags).flags * {U} == flags * {U}
    ensures LeafFor(pa, size, flags).flags * RIGHTS == flags * RIGHTS
  {
  }

  // ---- ranges ----

  /** A translation to the given physical address with the requested flags. */
  predicate MapsTo(q: Option<Mapping>, pa: nat, flags: set<nat>) {
    q.Some? && q.value.pa == pa && q.value.flags - {PS} == flags + {P}
  }

  lemma BlockIff(va: nat, w: nat, size: nat)
    requires Aligned(va, size) && (size == 0x1000 || size == 0x20_0000)
    ensures w / Span(LevelFor(size)) == va / Span(LevelFor(size)) <==> va <= w < va + size
    ensures va <= w < va + size ==> w % Span(LevelFor(size)) == w - va
  {
  }

  lemma BaseOf(pa: nat, size: nat, flags: set<nat>)
    requires Aligned(pa, size) && (size == 0x1000 || size == 0x20_0000)
    ensures LeafBase(LeafFor(pa, size, flags), LevelFor(size)) == pa
  {
  }

  lemma CanonicalBlock(va: nat, w: nat, size: nat)
    requires Aligned(va, size) && Canonical(va) && va <= w < va + size && (size == 0x1000 || size == 0x20_0000)
    ensures Canonical(w)
  {
  }

  /** What a mapped page means for an address. */
  lemma PageQuery(mem: Memory, root: nat, va: nat, pa: nat, size: nat, flags: set<nat>, w: nat)
    requires MapArgs(va, pa, size, flags) == PtOk
    requires PageHolds(mem, root, va, LevelFor(size), Some(Leaf(LeafFor(pa, size, flags), LevelFor(size))))
    ensures va <= w < va + size ==> Canonical(w) && MapsTo(Query(mem, root, w), pa + (w - va), flags)
  {
    if va <= w < va + size {
      CanonicalBlock(va, w, size);
      SamePageIff(va, w, LevelFor(size));
      BlockIff(va, w, size);
      BaseOf(pa, size, flags);
      assert Ask(root, w);
    }
  }

  lemma PageOutside(va: nat, pa: nat, size: nat, flags: set<nat>, w: nat)
    requires MapArgs(va, pa, size, flags) == PtOk && Canonical(w) && !(va <= w < va + size)
    ensures !SamePage(va, w, LevelFor(size))
  {
    SamePageIff(va, w, LevelFor(size));
    BlockIff(va, w, size);
  }

  /** A large page where both addresses are aligned and enough is left. */
  function PickSize(va: nat, pa: nat, left: nat, allow2m: bool): (size: nat)
    ensures size == 0x1000 || size == 0x20_0000
    ensures left > 0 && left % 0x1000 == 0 ==> size <= left && (left - size) % 0x1000 == 0
  {
    if allow2m && Aligned(va, 0x20_0000) && Aligned(pa, 0x20_0000) && left >= 0x20_0000 then 0x20_0000 else 0x1000
  }

  ghost predicate ReachableRange(mem: Memory, kernel: nat, root: nat, va: nat, len: nat) {
    forall w: nat {:trigger Ask(root, w)} :: Ask(root, w) && va <= w < va + len ==> Reachable(mem, kernel, root, w)
  }

  /** The range is mapped as asked. */
  ghost predicate RangeMapped(mem: Memory, root: nat, va: nat, pa: nat, len: nat, flags: set<nat>) {
    forall w: nat {:trigger Ask(root, w)} :: Ask(root, w) && va <= w < va + len ==>
      Canonical(w) && MapsTo(Query(mem, root, w), pa + (w - va), flags)
  }

  /** Every translation is as it was, except in the range those that pass through the same host. */
  ghost predicate OnlyRange(mem: Memory, mem': Memory, at: map<nat, Place>, kernel: nat, root: nat, va: nat, len: nat) {
    forall r, w: nat {:trigger Ask(r, w)} :: Ask(r, w) && IsRoot(at, r) ==>
      !(va <= w < va + len && SameHost(kernel, root, w, r, w)) ==> Query(mem', r, w) == Query(mem, r, w)
  }

  lemma SameTop(va: nat, w: nat, level: nat)
    requires level < 4 && SamePage(va, w, level)
    ensures Index(w, 3) == Index(va, 3)
  {
    assert Path(w)[..4 - level][0] == Path(va)[..4 - level][0];
  }

  /** One page more. */
  lemma RangeMore(mem: Memory, mem1: Memory, mem2: Memory, at: map<nat, Place>, at1: map<nat, Place>, kernel: nat,
                  root: nat, va: nat, pa: nat, len: nat, v: nat, p: nat, size: nat, flags: set<nat>)
    requires IsRoot(at, root) && Keeps(at, at1) && v == va + len && p == pa + len && MapArgs(v, p, size, flags) == PtOk
    requires RangeMapped(mem1, root, va, pa, len, flags) && OnlyRange(mem, mem1, at, kernel, root, va, len)
    requires PageHolds(mem2, root, v, LevelFor(size), Some(Leaf(LeafFor(p, size, flags), LevelFor(size))))
    requires OnlyPage(mem1, mem2, at1, kernel, root, v, LevelFor(size))
    ensures RangeMapped(mem2, root, va, pa, len + size, flags) && OnlyRange(mem, mem2, at, kernel, root, va, len + size)
  {
    assert AskTable(root);
    forall r, w: nat | Ask(r, w) && IsRoot(at, r)
      ensures r == root && va <= w < va + len + size ==> Canonical(w) && MapsTo(Query(mem2, r, w), pa + (w - va), flags)
      ensures !(va <= w < va + len + size && SameHost(kernel, root, w, r, w)) ==> Query(mem2, r, w) == Query(mem, r, w)
    {
      assert AskTable(r);
      PageQuery(mem2, root, v, p, size, flags, w);
      if Canonical(w) && !(v <= w < v + size) {
        PageOutside(v, p, size, flags, w);
      }
      if SamePage(v, w, LevelFor(size)) {
        SameTop(v, w, LevelFor(size));
      }
    }
  }

  ghost predicate RangeKey(k: nat, mem': Memory, at': map<nat, Place>, done: nat) {
    true
  }

  /** So far `done` bytes of the range are mapped (behind a key, like Tree). */
  ghost predicate Ranged(mem: Memory, mem': Memory, at: map<nat, Place>, at': map<nat, Place>, kernel: nat, root: nat,
                         va: nat, pa: nat, done: nat, flags: set<nat>) {
    forall k {:trigger RangeKey(k, mem', at', done)} :: RangeKey(k, mem', at', done) ==>
      && Keeps(at, at') && RangeMapped(mem', root, va, pa, done, flags)
      && OnlyRange(mem, mem', at, kernel, root, va, done)
      && StillReachable(mem, mem', kernel, root)
  }

  /** What one page of the range did. */
  ghost predicate PageDone(mem1: Memory, mem2: Memory, at1: map<nat, Place>, kernel: nat, root: nat, v: nat, p: nat,
                           size: nat, flags: set<nat>, st: PtStatus) {
    StillReachable(mem1, mem2, kernel, root) && if st != PtOk then SameWalks(at1, mem1, mem2)
    else
      && MapArgs(v, p, size, flags) == PtOk
      && PageHolds(mem2, root, v, LevelFor(size), Some(Leaf(LeafFor(p, size, flags), LevelFor(size))))
      && OnlyPage(mem1, mem2, at1, kernel, root, v, LevelFor(size))
  }

  lemma RangeStep(mem: Memory, mem1: Memory, mem2: Memory, at: map<nat, Place>, at1: map<nat, Place>,
                  at2: map<nat, Place>, kernel: nat, root: nat, va: nat, pa: nat, done: nat, v: nat, p: nat, size: nat,
                  flags: set<nat>, st: PtStatus)
    requires IsRoot(at, root) && Ranged(mem, mem1, at, at1, kernel, root, va, pa, done, flags)
    requires Extends(at1, at2, Host(kernel, root, v))
    requires v == va + done && p == pa + done && PageDone(mem1, mem2, at1, kernel, root, v, p, size, flags, st)
    ensures Ranged(mem, mem2, at, at2, kernel, root, va, pa, if st == PtOk then done + size else done, flags)
  {
    assert RangeKey(0, mem1, at1, done);
    ExtendsKeeps(at, at1, at2, Host(kernel, root, v));
    if st == PtOk {
      RangeMore(mem, mem1, mem2, at, at1, kernel, root, va, pa, done, v, p, size, flags);
    } else {
      forall r, w: nat | Ask(r, w) && IsRoot(at, r) ensures Query(mem2, r, w) == Query(mem1, r, w) {
        assert AskTable(r);
      }
    }
  }

  // ---- teardown ----

  /** What the caller is told about a leaf. */
  datatype Report = Report(pa: nat, flags: set<nat>, size: nat)

  function ReportOf(e: Pte, level: nat): Report
    requires level < 4
  {
    Report(LeafBase(e, level), e.flags, Span(level))
  }

  /** The reports are those of the leaves at these spots, in order. */
  ghost predicate Reports(mem: Memory, at: map<nat, Place>, xs: seq<Spot>, log: seq<Report>) {
    |log| == |xs| && forall k | 0 <= k < |xs| ::
      && xs[k].t in mem && xs[k].t in at && xs[k].i < |mem[xs[k].t]| && |at[xs[k].t].path| <= 3
      && log[k] == ReportOf(mem[xs[k].t][xs[k].i], LevelOf(at[xs[k].t]))
  }

  lemma CardJoin(a: set<nat>, b: set<nat>)
    requires a !! b
    ensures |a + b| == |a| + |b|
  {
  }

  lemma {:induction false} CardLe(a: set<nat>, b: set<nat>)
    requires a <= b
    ensures |a| <= |b|
  {
    CardJoin(a, b - a);
    assert a + (b - a) == b;
  }

  lemma CardMinus(all: set<nat>, a: set<nat>)
    requires a <= all
    ensures |all - a| == |all| - |a|
  {
    CardJoin(a, all - a);
    assert a + (all - a) == all;
  }

  lemma CardSub(a: set<nat>, b: set<nat>, all: set<nat>)
    requires a !! b && a + b <= all
    ensures |a| + |b| <= |all|
  {
    CardJoin(a, b);
    CardLe(a + b, all);
  }

  lemma ReportsJoin(mem: Memory, at: map<nat, Place>, xs: seq<Spot>, log: seq<Report>, ys: seq<Spot>, more: seq<Report>)
    requires Reports(mem, at, xs, log) && Reports(mem, at, ys, more)
    ensures Reports(mem, at, xs + ys, log + more)
  {
  }

  class Tables {
    const kernel: nat
    const pmm: Pmm
    var mem: Memory
    var count: nat
    ghost var at: map<nat, Place>

    ghost predicate Valid()
      reads this, pmm, pmm.used, pmm.managed
    {
      mem.Keys == at.Keys && Tree(mem, at, kernel) && pmm.used.Length == pmm.managed.Length && pmm.used != pmm.managed
      && Pages(mem.Keys)
    }

    ghost predicate PagesKey(k: nat, keys: set<nat>) {
      true
    }

    /** The tables are on pages of the allocator that are not free (behind a key, like Tree). */
    ghost predicate Pages(keys: set<nat>)
      reads this`count, pmm, pmm.used, pmm.managed
    {
      forall k {:trigger PagesKey(k, keys)} :: PagesKey(k, keys) ==>
        && pmm.Valid() && keys !! pmm.Free() && count == |keys|
        && (forall t | t in keys :: t < pmm.managed.Length && pmm.managed[t])
    }

    /** The kernel's root, on a page taken from the allocator. */
    constructor (pages: Pmm, root: nat)
      requires pages.Valid() && root < pages.managed.Length && pages.managed[root] && root !in pages.Free()
      ensures Valid() && pmm == pages && kernel == root && mem.Keys == {root} && Nested(mem, at)
    {
      kernel, pmm, count := root, pages, 1;
      mem, at := map[root := NewTable()], map[root := Place(root, [], 0)];
    }

    /** Takes a free page for a table. */
    method TakePage() returns (p: nat)
      requires Valid()
      modifies this`count, pmm, pmm.used
      ensures pmm.used.Length == pmm.managed.Length
      ensures p == 0 ==> Valid() && old(pmm.Free()) == {} && pmm.Free() == old(pmm.Free()) && count == old(count)
      ensures p != 0 ==>
                p !in mem && p in old(pmm.Free()) && pmm.Free() == old(pmm.Free()) - {p} && Pages(mem.Keys + {p})
      ensures p != 0 ==> |pmm.Free()| + 1 == |old(pmm.Free())|
    {
      assert PagesKey(0, mem.Keys);
      ghost var f0 := pmm.Free();
      p := pmm.Alloc();
      if p != 0 {
        count := count + 1;
        Moved(f0, mem.Keys, pmm.Free(), mem.Keys + {p}, p);
      }
    }

    /** No table is on a free page. */
    lemma Apart()
      requires Valid()
      ensures pmm.Free() !! mem.Keys && count == |mem.Keys|
    {
      assert PagesKey(0, mem.Keys);
    }

    /** Takes a page for other use. */
    method Grab() returns (p: nat)
      requires Valid()
      modifies pmm, pmm.used
      ensures Valid() && (p == 0 <==> old(pmm.Free()) == {})
      ensures p == 0 ==> pmm.Free() == old(pmm.Free())
      ensures p != 0 ==> p in old(pmm.Free()) && p !in mem && pmm.Free() == old(pmm.Free()) - {p} && Allotted(p)
      ensures p != 0 ==> |pmm.Free()| + 1 == |old(pmm.Free())|
    {
      assert PagesKey(0, mem.Keys);
      p := pmm.Alloc();
    }

    /** A page the allocator hands out. */
    ghost predicate Allotted(p: nat)
      reads pmm.managed
    {
      p < pmm.managed.Length && pmm.managed[p]
    }

    /** Gives such a page back. */
    method PutBack(p: nat)
      requires Valid() && Allotted(p) && p !in pmm.Free() && p !in mem
      modifies pmm, pmm.used
      ensures Valid() && pmm.Free() == old(pmm.Free()) + {p}
    {
      assert PagesKey(0, mem.Keys);
      var st := pmm.Release(p);
      assert st == Ok;
    }

    /** Hangs page p, zeroed, behind the entry for va. */
    method HangPage(root: nat, va: nat, l: nat, t: nat, user: set<nat>, p: nat, ghost level: nat)
      requires Reached(mem, at, kernel, root, va, l, t) && level < l && user <= {U} && !Present(mem[t][Index(va, l)])
      requires p !in mem
      modifies this`mem, this`at
      ensures Reached(mem, at, kernel, root, va, l - 1, p) && mem.Keys == old(mem).Keys + {p}
      ensures SameWalks(old(at), old(mem), mem) && Extends(old(at), at, Host(kernel, root, va))
      ensures StillReachable(old(mem), mem, kernel, root)
      ensures WayTo(mem, p, l - 1, va, level) == Open(l - 1 - level)
      ensures Going(old(mem), old(at), va, user, t) ==> Going(mem, at, va, user, p)
    {
      if Going(mem, at, va, user, t) {
        GoingHang(mem, at, kernel, root, va, l, t, p, user);
      }
      WayHung(mem, t, va, l, p, {P, W} + user, level);
      StepHang(mem, at, kernel, root, va, l, t, p, {P, W} + user);
      mem, at := Hang(mem, t, Index(va, l), p, {P, W} + user), at[p := Below(kernel, at[t], t, Index(va, l))];
    }

    /** Makes the missing table behind the entry for va. */
    method AddTable(root: nat, va: nat, l: nat, t: nat, user: set<nat>, ghost level: nat) returns (p: nat)
      requires Valid() && Reached(mem, at, kernel, root, va, l, t) && level < l && user <= {U}
      requires !Present(mem[t][Index(va, l)])
      modifies this, pmm, pmm.used
      ensures Valid() && Grown(old(at), old(mem), old(pmm.Free()), at, mem, pmm.Free(), kernel, root, va)
      ensures p != 0 ==> Reached(mem, at, kernel, root, va, l - 1, p)
      ensures (p == 0 <==> old(pmm.Free()) == {}) && (p == 0 ==> pmm.Free() == {} && mem == old(mem))
      ensures p != 0 ==> WayTo(mem, p, l - 1, va, level) == Open(l - 1 - level) && |pmm.Free()| + 1 == |old(pmm.Free())|
      ensures p != 0 && Going(old(mem), old(at), va, user, t) ==> Going(mem, at, va, user, p)
      ensures p == 0 ==> at == old(at)
    {
      p := TakePage();
      if p != 0 {
        Shifted(old(pmm.Free()), mem.Keys, p);
        HangPage(root, va, l, t, user, p, level);
      }
    }

    /** One level down, making the table if it is missing. */
    method Step(root: nat, va: nat, l: nat, t: nat, user: set<nat>, ghost level: nat) returns (st: PtStatus, t': nat)
      requires Valid() && Reached(mem, at, kernel, root, va, l, t) && level < l && user <= {U}
      modifies this, pmm, pmm.used
      ensures Valid() && Grown(old(at), old(mem), old(pmm.Free()), at, mem, pmm.Free(), kernel, root, va)
      ensures st == PtOk ==>
                && Reached(mem, at, kernel, root, va, l - 1, t')
                && WayLess(WayTo(old(mem), t, l, va, level), |old(pmm.Free())|, WayTo(mem, t', l - 1, va, level),
                           |pmm.Free()|)
      ensures st != PtOk ==>
                && mem == old(mem) && pmm.Free() == old(pmm.Free()) && WayStops(WayTo(mem, t, l, va, level), st)
                && (st == ENomem ==> pmm.Free() == {}) && at == old(at)
      ensures st == PtOk && Going(old(mem), old(at), va, user, t) ==> Going(mem, at, va, user, t')
    {
      var i := Index(va, l);
      var e := mem[t][i];
      if !Present(e) {
        t' := AddTable(root, va, l, t, user, level);
        st := if t' == 0 then ENomem else PtOk;
      } else if PS in e.flags {
        st, t' := EExists, t;
      } else {
        if Going(mem, at, va, user, t) {
          GoingFlags(mem, at, kernel, root, va, l, t, user);
        }
        StepFlags(mem, at, kernel, root, va, l, t, user);
        WayFlags(mem, at, kernel, root, va, l, t, user, level);
        mem := Put(mem, t, i, e.(flags := e.flags + user));
        st, t' := PtOk, e.frame;
      }
    }

    /** The same, as the root sees it. */
    method Enter(root: nat, va: nat, l: nat, t: nat, user: set<nat>, ghost level: nat) returns (st: PtStatus, t': nat)
      requires Valid() && Reached(mem, at, kernel, root, va, l, t) && level < l && level < 2 && user <= {U}
      modifies this, pmm, pmm.used
      ensures Valid() && Grown(old(at), old(mem), old(pmm.Free()), at, mem, pmm.Free(), kernel, root, va)
      ensures st == PtOk ==> Reached(mem, at, kernel, root, va, l - 1, t')
      ensures WayLess(WayTo(old(mem), root, 3, va, level), |old(pmm.Free())|, WayTo(mem, root, 3, va, level),
                      |pmm.Free()|)
      ensures st != PtOk ==> WayStops(WayTo(mem, root, 3, va, level), st) && (st == ENomem ==> pmm.Free() == {})
      ensures Going(old(mem), old(at), va, user, t) ==>
                if st == PtOk then Going(mem, at, va, user, t') else Nested(mem, at)
    {
      WayRoot(mem, at, kernel, root, va, l, t, level);
      if Going(mem, at, va, user, t) {
        GoingNested(mem, at, va, user, t);
      }
      st, t' := Step(root, va, l, t, user, level);
      if st == PtOk {
        WayRoot(mem, at, kernel, root, va, l - 1, t', level);
      }
    }

    /** One level down, with what has been done before. */
    method EnterMore(root: nat, va: nat, l: nat, t: nat, user: set<nat>, ghost level: nat, ghost at0: map<nat, Place>,
                     ghost mem0: Memory, ghost free0: set<nat>) returns (st: PtStatus, t': nat)
      requires Valid() && Reached(mem, at, kernel, root, va, l, t) && level < l && level < 2 && user <= {U}
      requires Walked(at0, mem0, free0, at, mem, pmm.Free(), kernel, root, va, level, user, Some(t))
      modifies this, pmm, pmm.used
      ensures Valid() && (st == PtOk ==> Reached(mem, at, kernel, root, va, l - 1, t'))
      ensures Walked(at0, mem0, free0, at, mem, pmm.Free(), kernel, root, va, level, user,
                     if st == PtOk then Some(t') else None)
      ensures st != PtOk ==> WayStops(WayTo(mem, root, 3, va, level), st) && (st == ENomem ==> pmm.Free() == {})
    {
      ghost var at1, mem1, free1 := at, mem, pmm.Free();
      assert WalkKey(0, mem0, mem, root, va);
      st, t' := Enter(root, va, l, t, user, level);
      GrownTrans(at0, mem0, free0, at1, mem1, free1, at, mem, pmm.Free(), kernel, root, va);
    }

    /** The table on `level` for va, with intermediate tables made as needed. */
    method WalkCreate(root: nat, va: nat, level: nat, user: set<nat>) returns (st: PtStatus, t: nat)
      requires Valid() && IsRoot(at, root) && level < 2 && user <= {U} && Reachable(mem, kernel, root, va)
      modifies this, pmm, pmm.used
      ensures Valid() && (st == PtOk ==> Reached(mem, at, kernel, root, va, level, t))
      ensures Walked(old(at), old(mem), old(pmm.Free()), at, mem, pmm.Free(), kernel, root, va, level, user,
                     if st == PtOk then Some(t) else None)
      ensures st != PtOk ==> WayStops(WayTo(mem, root, 3, va, level), st) && (st == ENomem ==> pmm.Free() == {})
    {
      t := root;
      WalkStart(mem, at, kernel, pmm.Free(), root, va, level, user);
      var l := 3;
      while l > level
        invariant level <= l <= 3 && Valid() && Reached(mem, at, kernel, root, va, l, t)
        invariant Walked(old(at), old(mem), old(pmm.Free()), at, mem, pmm.Free(), kernel, root, va, level, user,
                         Some(t))
      {
        st, t := EnterMore(root, va, l, t, user, level, old(at), old(mem), old(pmm.Free()));
        if st != PtOk {
          return;
        }
        l := l - 1;
      }
      st := PtOk;
    }

    /** Walks down for va and says in which table, on which level, the walk ends at a page. */
    method FindLeaf(root: nat, va: nat) returns (st: PtStatus, t: nat, level: nat)
      requires mem.Keys == at.Keys && Tree(mem, at, kernel) && IsRoot(at, root)
      ensures st == (if !Canonical(va) then ENoncanonical
                     else if Lookup(mem, root, 3, va).None? then ENotMapped else PtOk)
      ensures st == PtOk ==> LeafAt(mem, root, va, level, t)
    {
      t, level := root, 3;
      if !Canonical(va) {
        st := ENoncanonical;
        return;
      }
      OpenTree(mem, at, kernel);
      while true
        invariant level < 4 && OnWalk(at, t, level, va) && Descend(mem, root, 3, va, level) == Some(t)
        invariant Lookup(mem, root, 3, va) == Lookup(mem, t, level, va)
        decreases level
      {
        LeafStep(mem, at, kernel, root, va, level, t);
        var e := mem[t][Index(va, level)];
        if !Present(e) {
          st := ENotMapped;
          return;
        }
        if level == 0 || (PS in e.flags && (level == 1 || level == 2)) {
          st := PtOk;
          return;
        }
        t, level := e.frame, level - 1;
      }
    }

    /** Translates va. */
    method Translate(root: nat, va: nat) returns (st: PtStatus, m: Mapping)
      requires mem.Keys == at.Keys && Tree(mem, at, kernel) && IsRoot(at, root)
      ensures st == PtOk ==> Query(mem, root, va) == Some(m)
      ensures st != PtOk ==> st == (if Canonical(va) then ENotMapped else ENoncanonical) && Query(mem, root, va) == None
    {
      var t, level;
      st, t, level := FindLeaf(root, va);
      m := Mapping(0, {}, 0);
      if st == PtOk {
        var e := mem[t][Index(va, level)];
        m := Mapping(LeafBase(e, level) + va % Span(level), e.flags, Span(level));
      }
    }

    /** After success the whole page around va translates to nothing; no other translation changes. */
    method Unmap(root: nat, va: nat) returns (st: PtStatus, pa: nat, size: nat, ghost found: Leaf)
      requires Valid() && IsRoot(at, root)
      modifies this`mem
      ensures Valid() && mem.Keys == old(mem).Keys
      ensures st == (if !Canonical(va) then ENoncanonical
                     else if Lookup(old(mem), root, 3, va).None? then ENotMapped else PtOk)
      ensures st != PtOk ==> mem == old(mem)
      ensures st == PtOk ==>
                && Lookup(old(mem), root, 3, va) == Some(found) && found.level < 3
                && size == Span(found.level) && pa == LeafBase(found.entry, found.level)
                && PageHolds(mem, root, va, found.level, None)
                && OnlyPage(old(mem), mem, at, kernel, root, va, found.level)
                && (found.level == 0 ==> Descend(mem, root, 3, va, 0).Some?)
                && StillReachable(old(mem), mem, kernel, root)
      ensures Nested(old(mem), at) ==> Nested(mem, at)
    {
      var t, l;
      st, t, l := FindLeaf(root, va);
      pa, size, found := 0, 0, Leaf(ZERO, 0);
      if st == PtOk {
        var e := mem[t][Index(va, l)];
        pa, size, found := LeafBase(e, l), Span(l), Leaf(e, l);
        LeafReached(mem, at, kernel, root, va, l, t);
        PutEntry(root, va, l, t, ZERO);
      }
    }

    /** Writes the entry for va. */
    method PutEntry(root: nat, va: nat, level: nat, t: nat, e: Pte)
      requires Reached(mem, at, kernel, root, va, level, t) && level < 3
      requires !Refers(mem[t][Index(va, level)], level) && !Refers(e, level)
      modifies this`mem
      ensures mem.Keys == old(mem).Keys && Tree(mem, at, kernel)
      ensures OnlyPage(old(mem), mem, at, kernel, root, va, level)
      ensures PageHolds(mem, root, va, level, if Present(e) then Some(Leaf(e, level)) else None)
      ensures StillReachable(old(mem), mem, kernel, root) && Descend(mem, root, 3, va, level) == Some(t)
      ensures Nested(old(mem), at) && (Present(e) && U in e.flags ==> Lit(old(mem), at, t)) ==> Nested(mem, at)
    {
      OpenTree(mem, at, kernel);
      if Nested(mem, at) && (Present(e) && U in e.flags ==> Lit(mem, at, t)) {
        PutNested(mem, at, kernel, t, Index(va, level), e);
      }
      DescendKept(mem, Put(mem, t, Index(va, level), e), at, kernel, root, 3, va, level, t, Index(va, level));
      PutLeaf(mem, at, kernel, root, va, level, t, e);
      mem := Put(mem, t, Index(va, level), e);
    }

    /** Writes leaf e into the table reached, unless something is there. */
    method Fill(root: nat, va: nat, level: nat, t: nat, e: Pte) returns (st: PtStatus)
      requires Valid() && Reached(mem, at, kernel, root, va, level, t) && level < 2 && Present(e) && IsLeaf(e, level)
      modifies this`mem
      ensures Valid() && mem.Keys == old(mem).Keys && pmm.Free() == old(pmm.Free()) && st in {PtOk, EExists}
      ensures StillReachable(old(mem), mem, kernel, root)
      ensures st == PtOk ==>
                && Lookup(old(mem), root, 3, va) == None && PageHolds(mem, root, va, level, Some(Leaf(e, level)))
                && OnlyPage(old(mem), mem, at, kernel, root, va, level)
      ensures st == EExists <==> WayTo(old(mem), t, level, va, level) == Blocked
      ensures st == EExists ==> mem == old(mem)
      ensures Going(old(mem), at, va, e.flags * {U}, t) ==> Nested(mem, at)
    {
      WalkEnds(mem, at, kernel, root, va, level, t);
      if Going(mem, at, va, e.flags * {U}, t) {
        GoingNested(mem, at, va, e.flags * {U}, t);
      }
      if Present(mem[t][Index(va, level)]) {
        st := EExists;
      } else {
        PutEntry(root, va, level, t, e);
        st := PtOk;
      }
    }

    /** The walk, and what it says about the outcome. */
    method Clear(root: nat, va: nat, level: nat, user: set<nat>) returns (st: PtStatus, t: nat)
      requires Valid() && IsRoot(at, root) && level < 2 && user <= {U} && Reachable(mem, kernel, root, va)
      modifies this, pmm, pmm.used
      ensures Valid() && Grown(old(at), old(mem), old(pmm.Free()), at, mem, pmm.Free(), kernel, root, va)
      ensures Taken(mem, root, va, level) == Taken(old(mem), root, va, level)
      ensures st == PtOk ==>
                && Reached(mem, at, kernel, root, va, level, t)
                && MapOutcome(old(mem), root, va, level, |old(pmm.Free())|) ==
                   (if WayTo(mem, t, level, va, level) == Blocked then EExists else PtOk)
      ensures st != PtOk ==>
                st == MapOutcome(old(mem), root, va, level, |old(pmm.Free())|) && (st == ENomem ==> pmm.Free() == {})
      ensures Nested(old(mem), old(at)) && Proper(va, user) ==>
                if st == PtOk then Going(mem, at, va, user, t) else Nested(mem, at)
    {
      RootReached(mem, at, kernel, root, va, level);
      st, t := WalkCreate(root, va, level, user);
      assert AskTable(root) && WalkKey(0, old(mem), mem, root, va);
      RootReached(mem, at, kernel, root, va, level);
      if st == PtOk {
        WayRoot(mem, at, kernel, root, va, level, t, level);
      }
    }

    /** Puts leaf e for va on `level`, unless something is there. */
    method MapLeaf(root: nat, va: nat, level: nat, e: Pte, user: set<nat>) returns (st: PtStatus)
      requires Valid() && IsRoot(at, root) && Reachable(mem, kernel, root, va)
      requires level < 2 && user == e.flags * {U} && Present(e) && IsLeaf(e, level)
      modifies this, pmm, pmm.used
      ensures Valid() && Extends(old(at), at, Host(kernel, root, va))
      ensures pmm.Free() + mem.Keys == old(pmm.Free()) + old(mem).Keys
      ensures StillReachable(old(mem), mem, kernel, root)
      ensures st == MapOutcome(old(mem), root, va, level, |old(pmm.Free())|)
      ensures st != PtOk ==>
                SameWalks(old(at), old(mem), mem) && Taken(mem, root, va, level) == Taken(old(mem), root, va, level)
      ensures st == PtOk ==>
                && Lookup(old(mem), root, 3, va) == None && PageHolds(mem, root, va, level, Some(Leaf(e, level)))
                && OnlyPage(old(mem), mem, old(at), kernel, root, va, level)
      ensures st == ENomem ==> pmm.Free() == {}
      ensures Grades(old(mem), old(at), mem, at, root, va, e.flags, st == PtOk)
    {
      var t;
      st, t := Clear(root, va, level, user);
      if st == PtOk {
        ghost var at1, mem1 := at, mem;
        assert Ask(root, va) && Lookup(mem1, root, 3, va) == Lookup(old(mem), root, 3, va);
        st := Fill(root, va, level, t, e);
        if st == PtOk {
          GrownThenPut(old(at), at1, old(mem), mem1, mem, kernel, root, va, level);
          if Nested(mem, at) {
            AllowedHere(root, va, level, e);
          }
        }
      }
    }

    /** One page, of either size.  Success changes exactly that page; failure changes no translation,
        though tables may have been added. */
    method Map(root: nat, va: nat, pa: nat, size: nat, flags: set<nat>) returns (st: PtStatus)
      requires Valid() && IsRoot(at, root) && Reachable(mem, kernel, root, va)
      modifies this, pmm, pmm.used
      ensures Valid() && Extends(old(at), at, Host(kernel, root, va))
      ensures pmm.Free() + mem.Keys == old(pmm.Free()) + old(mem).Keys
      ensures StillReachable(old(mem), mem, kernel, root)
      ensures st == if MapArgs(va, pa, size, flags) != PtOk then MapArgs(va, pa, size, flags)
                    else MapOutcome(old(mem), root, va, LevelFor(size), |old(pmm.Free())|)
      ensures st != PtOk ==>
                && SameWalks(old(at), old(mem), mem)
                && Taken(mem, root, va, LevelFor(size)) == Taken(old(mem), root, va, LevelFor(size))
      ensures st == PtOk ==>
                && Lookup(old(mem), root, 3, va) == None
                && PageHolds(mem, root, va, LevelFor(size), Some(Leaf(LeafFor(pa, size, flags), LevelFor(size))))
                && OnlyPage(old(mem), mem, old(at), kernel, root, va, LevelFor(size))
      ensures st == ENomem ==> pmm.Free() == {}
      ensures Grades(old(mem), old(at), mem, at, root, va, flags, st == PtOk)
    {
      st := MapArgs(va, pa, size, flags);
      if st == PtOk {
        LeafRights(pa, size, flags);
        st := MapLeaf(root, va, LevelFor(size), LeafFor(pa, size, flags), flags * {U});
        GradesSame(old(mem), old(at), mem, at, root, va, LeafFor(pa, size, flags).flags, flags, st == PtOk);
      }
    }

    /** The rights of a page are those of its leaf. */
    lemma AllowedHere(root: nat, va: nat, level: nat, e: Pte)
      requires Valid() && IsRoot(at, root) && Nested(mem, at) && level < 4
      requires PageHolds(mem, root, va, level, Some(Leaf(e, level)))
      ensures Grants(mem, root, va, e.flags * RIGHTS)
    {
      OpenTree(mem, at, kernel);
      AllowedIff(mem, at, kernel, root, 3, va);
      assert Ask(root, va);
    }

    /** Why the page at v was not mapped: a bad argument, something there already, or no page left for a
        table. */
    ghost predicate Refused(st: PtStatus, root: nat, v: nat, p: nat, left: nat, flags: set<nat>, allow2m: bool)
      requires pmm.used.Length == pmm.managed.Length
      reads this`mem, pmm, pmm.used, pmm.managed
    {
      var size := PickSize(v, p, left, allow2m);
      if MapArgs(v, p, size, flags) != PtOk then st == MapArgs(v, p, size, flags)
      else if Taken(mem, root, v, LevelFor(size)) then st == EExists
      else st == ENomem && pmm.Free() == {}
    }

    /** One page of a range. */
    method MapNext(root: nat, v: nat, p: nat, left: nat, flags: set<nat>, allow2m: bool,
                   ghost mem0: Memory, ghost at0: map<nat, Place>, ghost va: nat, ghost pa: nat, ghost done: nat)
      returns (st: PtStatus, size: nat)
      requires Valid() && IsRoot(at, root) && IsRoot(at0, root) && Reachable(mem, kernel, root, v)
      requires left > 0 && left % 0x1000 == 0 && v == va + done && p == pa + done
      requires Ranged(mem0, mem, at0, at, kernel, root, va, pa, done, flags)
      modifies this, pmm, pmm.used
      ensures Valid() && IsRoot(at, root) && 0 < size <= left && (left - size) % 0x1000 == 0
      ensures Ranged(mem0, mem, at0, at, kernel, root, va, pa, if st == PtOk then done + size else done, flags)
      ensures st != PtOk ==> Refused(st, root, v, p, left, flags, allow2m)
      ensures Nested(old(mem), old(at)) && Proper(v, flags) ==> Nested(mem, at)
    {
      size := PickSize(v, p, left, allow2m);
      ghost var mem1, at1 := mem, at;
      st := Map(root, v, p, size, flags);
      assert Ask(root, v) && GrantKey(0, mem, root, v);
      RangeStep(mem0, mem1, mem, at0, at1, at, kernel, root, va, pa, done, v, p, size, flags, st);
      assert AskTable(root);
    }

    /** The loop of a range: page after page until one fails. */
    method MapPages(root: nat, va: nat, pa: nat, len: nat, flags: set<nat>, allow2m: bool)
      returns (st: PtStatus, ghost done: nat)
      requires Valid() && IsRoot(at, root) && ReachableRange(mem, kernel, root, va, len) && len % 0x1000 == 0
      modifies this, pmm, pmm.used
      ensures Valid() && done <= len && (st == PtOk <==> done == len)
      ensures RangeMapped(mem, root, va, pa, done, flags) && OnlyRange(old(mem), mem, old(at), kernel, root, va, done)
      ensures st != PtOk ==> Refused(st, root, va + done, pa + done, len - done, flags, allow2m)
      ensures Nested(old(mem), old(at)) && (forall w | va <= w < va + len :: Proper(w, flags)) ==> Nested(mem, at)
    {
      var v, p, left: nat := va, pa, len;
      done := 0;
      st := PtOk;
      while left > 0
        invariant st == PtOk
        invariant Valid() && left + done == len && v == va + done && p == pa + done && left % 0x1000 == 0
        invariant IsRoot(at, root)
        invariant Ranged(old(mem), mem, old(at), at, kernel, root, va, pa, done, flags)
        invariant Nested(old(mem), old(at)) && (forall w | va <= w < va + len :: Proper(w, flags)) ==> Nested(mem, at)
      {
        assert Ask(root, v) && RangeKey(0, mem, at, done);
        var size;
        st, size := MapNext(root, v, p, left, flags, allow2m, old(mem), old(at), va, pa, done);
        if st != PtOk {
          assert RangeKey(0, mem, at, done);
          return;
        }
        v, p, left, done := v + size, p + size, left - size, done + size;
      }
      assert RangeKey(0, mem, at, done);
    }

    /** A range, in large pages wherever both addresses and the rest are multiples of one.  After an error
        `done` bytes are mapped and nothing else has changed. */
    method MapRange(root: nat, va: nat, pa: nat, len: nat, flags: set<nat>, allow2m: bool)
      returns (st: PtStatus, ghost done: nat)
      requires Valid() && IsRoot(at, root) && ReachableRange(mem, kernel, root, va, len)
      modifies this, pmm, pmm.used
      ensures Valid() && done <= len && (st == PtOk ==> done == len)
      ensures RangeMapped(mem, root, va, pa, done, flags) && OnlyRange(old(mem), mem, old(at), kernel, root, va, done)
      ensures if va % 0x1000 != 0 || pa % 0x1000 != 0 || len % 0x1000 != 0 then st == EAlign && done == 0
              else if len != 0 && (va + len > 0xFFFF_FFFF_FFFF_FFFF || pa + len > 0xFFFF_FFFF_FFFF_FFFF)
              then st == ERange && done == 0
              else st != PtOk ==> done < len && Refused(st, root, va + done, pa + done, len - done, flags, allow2m)
      ensures Nested(old(mem), old(at)) && (forall w | va <= w < va + len :: Proper(w, flags)) ==> Nested(mem, at)
    {
      done := 0;
      if va % 0x1000 != 0 || pa % 0x1000 != 0 || len % 0x1000 != 0 {
        st := EAlign;
      } else if len != 0 && (va + len > 0xFFFF_FFFF_FFFF_FFFF || pa + len > 0xFFFF_FFFF_FFFF_FFFF) {
        st := ERange;
      } else {
        st, done := MapPages(root, va, pa, len, flags, allow2m);
      }
    }

    /** These pages are in use. */
    ghost predicate Held(pages: set<nat>)
      reads pmm, pmm.used, pmm.managed
    {
      pmm.Valid() && pages !! pmm.Free() && forall t | t in pages :: t < pmm.managed.Length && pmm.managed[t]
    }

    /** The pages given back so far, and the count that goes with them. */
    ghost predicate Returned(free: set<nat>, n: nat, pages: set<nat>)
      reads this`count, pmm, pmm.used, pmm.managed
    {
      pmm.Valid() && pmm.Free() == free + pages && count == n - |pages|
    }

    lemma ReturnedMore(free: set<nat>, n: nat, pages: set<nat>, more: set<nat>, n': nat, all: set<nat>)
      requires pages !! more && all == pages + more && n' == n - |pages| && Returned(free + pages, n', more)
      ensures Returned(free, n, all)
    {
      CardJoin(pages, more);
      assert free + all == free + pages + more;
    }

    /** What hangs behind entry j of table t, if it is a table, is freed; a leaf is reported. */
    method DestroyEntry(t: nat, level: nat, j: nat) returns (log: seq<Report>, freed: set<nat>, ghost ys: seq<Spot>)
      requires mem.Keys == at.Keys && Tree(mem, at, kernel) && level <= 2 && t in mem && |at[t].path| == 3 - level
      requires j < 512 && |mem[t]| == 512
      requires Held(Subtree(at, at[t].root, at[t].path + [j])) && count >= |Subtree(at, at[t].root, at[t].path + [j])|
      modifies this`count, pmm, pmm.used
      ensures freed == Subtree(at, at[t].root, at[t].path + [j]) && Returned(old(pmm.Free()), old(count), freed)
      ensures Reports(mem, at, ys, log)
      ensures var e := mem[t][j];
              if !Present(e) then ys == []
              else if IsLeaf(e, level) then ys == [Spot(t, j)]
              else AllLeaves(mem, at, at[t].root, at[t].path + [j], ys)
      decreases level, 0
    {
      BehindNext(mem, at, kernel, t, j);
      ChildAt(mem, at, kernel, t, j);
      var e := mem[t][j];
      log, freed, ys := [], {}, [];
      if Present(e) {
        if IsLeaf(e, level) {
          log, ys := [ReportOf(e, level)], [Spot(t, j)];
        } else {
          log, freed, ys := DestroyTable(e.frame, level - 1);
        }
      }
    }

    /** The loop over the entries of table t. */
    method DestroyEntries(t: nat, level: nat) returns (log: seq<Report>, freed: set<nat>, ghost xs: seq<Spot>)
      requires mem.Keys == at.Keys && Tree(mem, at, kernel) && level <= 2 && t in mem && |at[t].path| == 3 - level
      requires Held(Subtree(at, at[t].root, at[t].path)) && count >= |Subtree(at, at[t].root, at[t].path)|
      modifies this`count, pmm, pmm.used
      ensures freed == BehindSet(at, at[t].root, at[t].path, 512) && Returned(old(pmm.Free()), old(count), freed)
      ensures SeenLeaves(mem, at, at[t].root, at[t].path, t, 512, xs) && Reports(mem, at, xs, log)
      decreases level, 1
    {
      ChildAt(mem, at, kernel, t, 0);
      ghost var root, p := at[t].root, at[t].path;
      ghost var free, n, all := pmm.Free(), count, Subtree(at, root, p);
      log, freed, xs := [], {}, [];
      for j := 0 to 512
        invariant freed == BehindSet(at, root, p, j) && Returned(free, n, freed)
        invariant SeenLeaves(mem, at, root, p, t, j, xs) && Reports(mem, at, xs, log)
      {
        BehindNext(mem, at, kernel, t, j);
        BehindSub(at, root, p, j);
        CardSub(freed, Subtree(at, root, p + [j]), all);
        var sub, more;
        ghost var ys;
        ghost var n' := count;
        sub, more, ys := DestroyEntry(t, level, j);
        ReturnedMore(free, n, freed, more, n', freed + more);
        SeenJoin(mem, at, kernel, t, j, xs, ys);
        ReportsJoin(mem, at, xs, log, ys, sub);
        log, freed, xs := log + sub, freed + more, xs + ys;
      }
    }

    /** Frees everything below and including table t, reporting each leaf; the memory itself is only
        read, and no table is read after it is freed. */
    method DestroyTable(t: nat, level: nat) returns (log: seq<Report>, freed: set<nat>, ghost xs: seq<Spot>)
      requires mem.Keys == at.Keys && Tree(mem, at, kernel) && level <= 2 && t in mem && |at[t].path| == 3 - level
      requires Held(Subtree(at, at[t].root, at[t].path)) && count >= |Subtree(at, at[t].root, at[t].path)|
      modifies this`count, pmm, pmm.used
      ensures freed == Subtree(at, at[t].root, at[t].path) && Returned(old(pmm.Free()), old(count), freed)
      ensures AllLeaves(mem, at, at[t].root, at[t].path, xs) && Reports(mem, at, xs, log)
      decreases level, 2
    {
      BehindAll(mem, at, kernel, t);
      CardJoin(BehindSet(at, at[t].root, at[t].path, 512), {t});
      log, freed, xs := DestroyEntries(t, level);
      SeenAll(mem, at, kernel, t, xs);
      ReleaseOne(t);
      freed := freed + {t};
    }

    method ReleaseOne(t: nat)
      requires pmm.Valid() && count > 0 && t < pmm.managed.Length && pmm.managed[t] && t !in pmm.Free()
      modifies this`count, pmm, pmm.used
      ensures pmm.Valid() && pmm.Free() == old(pmm.Free()) + {t} && count == old(count) - 1
    {
      var st := pmm.Release(t);
      assert st == Ok;
      count := count - 1;
    }

    /** Frees the table behind a slot of a root with all below it. */
    method DestroyTop(t: nat) returns (log: seq<Report>, freed: set<nat>, ghost xs: seq<Spot>)
      requires Valid() && t in mem && |at[t].path| == 1
      modifies this`count, pmm, pmm.used
      ensures freed == Subtree(at, at[t].root, at[t].path)
      ensures pmm.used.Length == pmm.managed.Length && Pages(mem.Keys - freed) && pmm.Free() == old(pmm.Free()) + freed
      ensures AllLeaves(mem, at, at[t].root, at[t].path, xs) && Reports(mem, at, xs, log)
    {
      assert PagesKey(0, mem.Keys);
      CardMinus(mem.Keys, Subtree(at, at[t].root, at[t].path));
      log, freed, xs := DestroyTable(t, 2);
    }

    /** Gives back the page of one table. */
    method ReleaseTable(t: nat)
      requires Valid() && t in mem
      modifies this`count, pmm, pmm.used
      ensures pmm.used.Length == pmm.managed.Length && Pages(mem.Keys - {t}) && pmm.Free() == old(pmm.Free()) + {t}
    {
      assert PagesKey(0, mem.Keys);
      CardMinus(mem.Keys, {t});
      var st := pmm.Release(t);
      assert st == Ok;
      count := count - 1;
    }

    /** Frees the page of a root that has no tables left. */
    method DropPage(root: nat)
      requires Valid() && root in mem && Tree(Without(mem, {root}), at - {root}, kernel)
      modifies this, pmm, pmm.used
      ensures Valid() && mem == Without(old(mem), {root}) && at == old(at) - {root}
      ensures pmm.Free() == old(pmm.Free()) + {root}
    {
      ReleaseTable(root);
      mem, at := Without(mem, {root}), at - {root};
    }
  }
}
