/** Copies between the kernel and user memory, through the page tables of a task. */
module UserAccess {
  import opened Common
  import opened Congruence
  import opened PageTree
  import opened PageRights
  import opened PageTables

  const USER_BASE: nat := 0x80_0000_0000

  const USER_TOP: nat := 0x8000_0000_0000

  predicate RangeOk(va: nat, len: nat) {
    va >= USER_BASE && va < USER_TOP && len <= USER_TOP - va
  }

  /** The address belongs to the slots that each space has for itself. */
  predicate OwnAddress(w: nat) {
    Canonical(w) && 1 <= Index(w, 3) <= 255
  }

  lemma OwnBounds(w: nat)
    ensures OwnAddress(w) <==> USER_BASE <= w < USER_TOP
  {
    assert Span(3) == USER_BASE;
  }

  /** A range is a user's exactly if all its bytes are at such addresses. */
  lemma RangeOkIff(va: nat, len: nat)
    requires len > 0
    ensures RangeOk(va, len) <==> forall w: nat | va <= w < va + len :: OwnAddress(w)
  {
    OwnBounds(va);
    OwnBounds(va + len - 1);
    forall w: nat | va <= w < va + len ensures OwnAddress(w) <==> USER_BASE <= w < USER_TOP {
      OwnBounds(w);
    }
  }

  function PageOf(va: nat): nat {
    va / 0x1000 * 0x1000
  }

  predicate Permits(m: Mapping, write: bool) {
    P in m.flags && U in m.flags && (write ==> W in m.flags)
  }

  /** The physical address of a user byte, 0 where the access is refused; so physical page 0 never serves. */
  function UserByte(mem: Memory, root: nat, va: nat, write: bool): nat {
    match Query(mem, root, va)
    case None => 0
    case Some(m) => if Permits(m, write) then m.pa else 0
  }

  /** Every page that [va, va+len) touches may be accessed. */
  ghost predicate Passes(mem: Memory, root: nat, va: nat, len: nat, write: bool) {
    len == 0 || (RangeOk(va, len) && PassesTo(mem, root, va, va + len, write))
  }

  /** ... each page of the bytes from va to end. */
  ghost predicate PassesTo(mem: Memory, root: nat, va: nat, end: nat, write: bool) {
    forall w: nat {:trigger Touch(w)} :: Touch(w) && va <= w < end ==> UserByte(mem, root, PageOf(w), write) != 0
  }

  ghost predicate Touch(w: nat) { true }

  /** What the processor asks for when the user's code accesses memory. */
  function Needs(write: bool): set<nat> {
    if write then {U, W} else {U}
  }

  /** The kernel accesses a user byte exactly where the processor would let the user's own code do so. */
  lemma UserByteIff(mem: Memory, at: map<nat, Place>, kernel: nat, root: nat, va: nat, write: bool)
    requires Tree(mem, at, kernel) && Nested(mem, at) && IsRoot(at, root)
    ensures Needs(write) <= Allowed(mem, root, 3, va) && Canonical(va) ==> Query(mem, root, va).Some?
    ensures UserByte(mem, root, va, write) ==
              if Needs(write) <= Allowed(mem, root, 3, va) && Canonical(va) then Query(mem, root, va).value.pa else 0
  {
    OpenTree(mem, at, kernel);
    AllowedIff(mem, at, kernel, root, 3, va);
    var leaf := Lookup(mem, root, 3, va);
    if leaf.Some? {
      assert U in leaf.value.entry.flags * RIGHTS <==> U in leaf.value.entry.flags;
      assert W in leaf.value.entry.flags * RIGHTS <==> W in leaf.value.entry.flags;
      LeafPresent(mem, root, 3, va);
    } else {
      assert U in Needs(write);
    }
  }

  lemma {:induction false} LeafPresent(mem: Memory, t: nat, level: nat, va: nat)
    requires level < 4 && Lookup(mem, t, level, va).Some?
    ensures Present(Lookup(mem, t, level, va).value.entry) && Lookup(mem, t, level, va).value.level < 4
    decreases level
  {
    var e := mem[t][Index(va, level)];
    if !IsLeaf(e, level) {
      LeafPresent(mem, e.frame, level - 1, va);
    }
  }

  lemma PassesPage(mem: Memory, root: nat, va: nat, page: nat, end: nat, write: bool)
    requires PassesTo(mem, root, va, page, write) && Whole(page) && UserByte(mem, root, page, write) != 0
    requires page < end <= page + 0x1000
    ensures PassesTo(mem, root, va, end, write)
  {
    forall w: nat | Touch(w) && page <= w < end ensures PageOf(w) == page {
      InPage(page, w - page);
    }
  }

  lemma PassesNot(mem: Memory, root: nat, va: nat, page: nat, end: nat, write: bool)
    requires PageOf(va) <= page < end && va < end && Whole(page) && UserByte(mem, root, page, write) == 0
    ensures !PassesTo(mem, root, va, end, write)
  {
    Touched(va, page);
    assert Touch(if va > page then va else page);
  }

  lemma SpanPages(level: nat)
    requires level < 4
    ensures Span(level) == Span(level) / 0x1000 * 0x1000 && Span(level) / 0x1000 > 0
  {
  }

  /** Two addresses of one page lie in one unit of any whole number of pages. */
  lemma SameUnit(v: int, w: int, k: int)
    requires 0 <= v && 0 <= w && k > 0 && v / 0x1000 == w / 0x1000
    ensures v / (k * 0x1000) == w / (k * 0x1000) && v % (k * 0x1000) - v % 0x1000 == w % (k * 0x1000) - w % 0x1000
  {
    UnitOf(v, k);
    UnitOf(w, k);
  }

  lemma UnitOf(v: int, k: int)
    requires 0 <= v && k > 0
    ensures v / (k * 0x1000) == v / 0x1000 / k && v % (k * 0x1000) == v / 0x1000 % k * 0x1000 + v % 0x1000
  {
    var p, q := v / 0x1000, v / 0x1000 / k;
    assert p == q * k + p % k;
    assert v == p * 0x1000 + v % 0x1000;
    assert (q * k + p % k) * 0x1000 == q * (k * 0x1000) + p % k * 0x1000;
    assert p % k + 1 <= k;
    assert (p % k + 1) * 0x1000 <= k * 0x1000;
    Div(v, k * 0x1000, q, p % k * 0x1000 + v % 0x1000);
  }

  lemma {:induction false} SameLookup(mem: Memory, t: nat, level: nat, v: nat, w: nat)
    requires level < 4 && v / 0x1000 == w / 0x1000
    ensures Lookup(mem, t, level, v) == Lookup(mem, t, level, w)
    decreases level
  {
    SpanPages(level);
    SameUnit(v, w, Span(level) / 0x1000);
    if level > 0 && t in mem && |mem[t]| == 512 {
      SameLookup(mem, mem[t][Index(v, level)].frame, level - 1, v, w);
    }
  }

  /** The bytes of a page lie side by side, whatever the size of the leaf that maps it. */
  lemma SamePage(mem: Memory, root: nat, v: nat, w: nat)
    requires v / 0x1000 == w / 0x1000 && Canonical(v)
    ensures Query(mem, root, v).None? <==> Query(mem, root, w).None?
    ensures Query(mem, root, v).Some? ==>
              (&& Query(mem, root, w).value.flags == Query(mem, root, v).value.flags
               && Query(mem, root, w).value.pa - w % 0x1000 == Query(mem, root, v).value.pa - v % 0x1000)
  {
    SameLookup(mem, root, 3, v, w);
    match Lookup(mem, root, 3, v)
    case None =>
    case Some(Leaf(e, level)) =>
      if level < 4 {
        SameOffset(level, v, w);
      }
  }

  lemma SameOffset(level: nat, v: nat, w: nat)
    requires level < 4 && v / 0x1000 == w / 0x1000
    ensures v % Span(level) - v % 0x1000 == w % Span(level) - w % 0x1000
  {
    SpanPages(level);
    SameUnit(v, w, Span(level) / 0x1000);
  }

  lemma BelowTop(w: nat)
    requires w < USER_TOP
    ensures Canonical(w) && Canonical(PageOf(w)) && PageOf(w) / 0x1000 == w / 0x1000 && PageOf(w) % 0x1000 == 0
  {
  }

  /** What the check of a page says about each of its bytes. */
  lemma PageByte(mem: Memory, root: nat, w: nat, write: bool)
    requires w < USER_TOP && UserByte(mem, root, PageOf(w), write) != 0
    ensures UserByte(mem, root, w, write) == UserByte(mem, root, PageOf(w), write) + w % 0x1000
  {
    BelowTop(w);
    SamePage(mem, root, PageOf(w), w);
  }

  type Ram = map<nat, Byte>

  function Get(ram: Ram, pa: nat): Byte {
    if pa in ram then ram[pa] else 0
  }

  /** The physical addresses of the user bytes from va on. */
  function Addresses(mem: Memory, root: nat, va: nat, len: nat, write: bool): (a: seq<nat>)
    ensures |a| == len
  {
    seq<nat>(len, i requires 0 <= i < len => UserByte(mem, root, va + i, write))
  }

  /** The bytes of src stored one after the other. */
  function Stored(ram: Ram, a: seq<nat>, src: seq<Byte>): Ram
    requires |a| == |src|
  {
    if src == [] then ram
    else
      var n := |src| - 1;
      Stored(ram, a[..n], src[..n])[a[n] := src[n]]
  }

  lemma StoredMore(ram: Ram, a: seq<nat>, src: seq<Byte>, n: nat)
    requires n < |a| == |src|
    ensures Stored(ram, a[..n + 1], src[..n + 1]) == Stored(ram, a[..n], src[..n])[a[n] := src[n]]
  {
    assert a[..n + 1][..n] == a[..n] && src[..n + 1][..n] == src[..n];
  }

  /** Nothing else is stored. */
  lemma {:induction false} StoredOnly(ram: Ram, a: seq<nat>, src: seq<Byte>, pa: nat)
    requires |a| == |src| && pa !in a
    ensures Get(Stored(ram, a, src), pa) == Get(ram, pa)
    decreases |src|
  {
    if src != [] {
      var n := |src| - 1;
      StoredOnly(ram, a[..n], src[..n], pa);
    }
  }

  /** A byte holds what was stored last through any address that leads to it. */
  lemma {:induction false} StoredLast(ram: Ram, a: seq<nat>, src: seq<Byte>, i: nat)
    requires i < |src| == |a| && a[i] !in a[i + 1..]
    ensures Get(Stored(ram, a, src), a[i]) == src[i]
    decreases |src|
  {
    var n := |src| - 1;
    if i < n {
      assert a[n] == a[i + 1..][n - i - 1];
      assert a[..n][i + 1..] == a[i + 1..][..n - i - 1];
      StoredLast(ram, a[..n], src[..n], i);
    }
  }

  /** Addresses that lead to one byte are given one value. */
  ghost predicate Agrees(a: seq<nat>, src: seq<Byte>)
    requires |a| == |src|
  {
    forall i, j :: 0 <= i < j < |src| && a[i] == a[j] ==> src[i] == src[j]
  }

  ghost predicate ReadsBack(ram: Ram, a: seq<nat>, src: seq<Byte>)
    requires |a| == |src|
  {
    forall i :: 0 <= i < |src| ==> Get(Stored(ram, a, src), a[i]) == src[i]
  }

  /** The last place of an address. */
  lemma {:induction false} LastAlias(a: seq<nat>, i: nat) returns (j: nat)
    requires i < |a|
    ensures i <= j < |a| && a[j] == a[i] && a[i] !in a[j + 1..]
    decreases |a|
  {
    var n := |a| - 1;
    if i == n || a[n] == a[i] {
      j := n;
    } else {
      j := LastAlias(a[..n], i);
      assert a[j + 1..] == a[..n][j + 1..] + [a[n]];
    }
  }

  /** What was copied out is what the user reads, unless a page mapped twice is given two values. */
  lemma ReadsBackIff(ram: Ram, a: seq<nat>, src: seq<Byte>)
    requires |a| == |src|
    ensures ReadsBack(ram, a, src) <==> Agrees(a, src)
  {
    if Agrees(a, src) {
      forall i | 0 <= i < |src| ensures Get(Stored(ram, a, src), a[i]) == src[i] {
        var j := LastAlias(a, i);
        StoredLast(ram, a, src, j);
      }
    }
  }

  /** Four tables that map one frame at two neighbouring pages, the first user pages. */
  function MappedTwice(): Memory {
    var none := seq(512, _ => ZERO);
    var leaf := Pte(5, {P, W, U});
    map[1 := none[1 := Pte(2, {P, W, U})], 2 := none[0 := Pte(3, {P, W, U})], 3 := none[0 := Pte(4, {P, W, U})],
        4 := none[0 := leaf][1 := leaf]]
  }

  /** Two values for a page that is mapped twice: the copy passes every check, and the first is not read back. */
  lemma TwoValues(src: seq<Byte>)
    requires |src| == 0x1001 && src[0] != src[0x1000]
    ensures Passes(MappedTwice(), 1, USER_BASE, |src|, true)
    ensures forall ram :: !ReadsBack(ram, Addresses(MappedTwice(), 1, USER_BASE, |src|, true), src)
  {
    var mem, a := MappedTwice(), Addresses(MappedTwice(), 1, USER_BASE, |src|, true);
    Resolves(0);
    Resolves(0x1000);
    forall w: nat | Touch(w) && USER_BASE <= w < USER_BASE + |src| ensures UserByte(mem, 1, PageOf(w), true) != 0 {
      assert PageOf(w) == USER_BASE || PageOf(w) == USER_BASE + 0x1000;
    }
    assert a[0] == a[0x1000];
    forall ram ensures !ReadsBack(ram, a, src) {
      ReadsBackIff(ram, a, src);
    }
  }

  lemma Resolves(d: nat)
    requires d == 0 || d == 0x1000
    ensures UserByte(MappedTwice(), 1, USER_BASE + d, true) == 0x5000
  {
    var mem, va := MappedTwice(), USER_BASE + d;
    assert Index(va, 3) == 1 && Index(va, 2) == 0 && Index(va, 1) == 0 && Index(va, 0) == d / 0x1000;
    assert Lookup(mem, 4, 0, va) == Some(Leaf(Pte(5, {P, W, U}), 0));
    assert Lookup(mem, 3, 1, va) == Lookup(mem, 4, 0, va);
    assert Lookup(mem, 2, 2, va) == Lookup(mem, 3, 1, va);
    assert Lookup(mem, 1, 3, va) == Lookup(mem, 2, 2, va);
  }

  /** What the first n bytes of a copy make of memory ram0 and buffer k0. */
  ghost predicate Copied(ram0: Ram, k0: seq<Byte>, ram: Ram, k: seq<Byte>, a: seq<nat>, n: nat, toUser: bool) {
    && n <= |a| <= |k0| == |k|
    && (if toUser then k == k0 && ram == Stored(ram0, a[..n], k0[..n])
        else ram == ram0 && k[n..] == k0[n..] && forall i :: 0 <= i < n ==> k[i] == Get(ram, a[i]))
  }

  lemma CopiedNext(ram0: Ram, k0: seq<Byte>, ram: Ram, k: seq<Byte>, ram': Ram, k': seq<Byte>, a: seq<nat>,
                   n: nat, toUser: bool)
    requires Copied(ram0, k0, ram, k, a, n, toUser) && n < |a|
    requires toUser ==> ram' == ram[a[n] := k[n]] && k' == k
    requires !toUser ==> ram' == ram && k' == k[n := Get(ram, a[n])]
    ensures Copied(ram0, k0, ram', k', a, n + 1, toUser)
  {
    if toUser {
      var src := k0[..|a|];
      StoredMore(ram0, a, src, n);
      assert src[..n] == k0[..n] && src[..n + 1] == k0[..n + 1];
    } else {
      assert k'[n + 1..] == k[n..][1..] && k0[n + 1..] == k0[n..][1..];
    }
  }

  class UserMemory {
    const tables: Tables
    var ram: Ram

    constructor (tables: Tables, ram: Ram)
      ensures this.tables == tables && this.ram == ram
    {
      this.tables, this.ram := tables, ram;
    }

    ghost predicate Ready(root: nat)
      reads this, tables
    {
      tables.mem.Keys == tables.at.Keys && Tree(tables.mem, tables.at, tables.kernel) && IsRoot(tables.at, root)
    }

    method UserPage(root: nat, va: nat, write: bool) returns (pa: nat)
      requires Ready(root)
      ensures pa == UserByte(tables.mem, root, va, write)
    {
      var st, m := tables.Translate(root, va);
      if st != PtOk {
        return 0;
      }
      if P !in m.flags || U !in m.flags || (write && W !in m.flags) {
        return 0;
      }
      return m.pa;
    }

    method Check(root: nat, va: nat, len: nat, write: bool) returns (ok: bool)
      requires Ready(root)
      ensures ok == Passes(tables.mem, root, va, len, write)
    {
      if len == 0 {
        return true;
      }
      if !RangeOk(va, len) {
        return false;
      }
      var page, end := PageOf(va), va + len;
      PageStart(va);
      while page < end
        invariant Whole(page) && PageOf(va) <= page
        invariant PassesTo(tables.mem, root, va, if page < end then page else end, write)
      {
        var pa := UserPage(root, page, write);
        if pa == 0 {
          PassesNot(tables.mem, root, va, page, end, write);
          return false;
        }
        var next := page + 0x1000;
        PassesPage(tables.mem, root, va, page, if next < end then next else end, write);
        NextPage(page);
        page := next;
      }
      return true;
    }

    /** One byte. */
    method Move(pa: nat, kbuf: array<Byte>, k: nat, toUser: bool)
      requires k < kbuf.Length
      modifies `ram, kbuf
      ensures toUser ==> ram == old(ram)[pa := kbuf[k]] && kbuf[..] == old(kbuf[..])
      ensures !toUser ==> ram == old(ram) && kbuf[..] == old(kbuf[..])[k := Get(ram, pa)]
    {
      if toUser {
        ram := ram[pa := kbuf[k]];
      } else {
        kbuf[k] := Get(ram, pa);
      }
    }

    /** The bytes of one page. */
    method CopyChunk(pa: nat, kbuf: array<Byte>, done: nat, chunk: nat, toUser: bool,
                     ghost ram0: Ram, ghost k0: seq<Byte>, ghost a: seq<nat>)
      requires Copied(ram0, k0, ram, kbuf[..], a, done, toUser) && done + chunk <= |a|
      requires forall i :: done <= i < done + chunk ==> a[i] == pa + (i - done)
      modifies `ram, kbuf
      ensures Copied(ram0, k0, ram, kbuf[..], a, done + chunk, toUser)
    {
      for i := 0 to chunk
        invariant Copied(ram0, k0, ram, kbuf[..], a, done + i, toUser)
      {
        ghost var ram1, k1 := ram, kbuf[..];
        assert a[done + i] == pa + i;
        Move(pa + i, kbuf, done + i, toUser);
        CopiedNext(ram0, k0, ram1, k1, ram, kbuf[..], a, done + i, toUser);
      }
    }

    /** Copies up to the end of the page, or of the range. */
    method CopyPart(root: nat, va: nat, kbuf: array<Byte>, len: nat, toUser: bool, done: nat,
                    ghost ram0: Ram, ghost k0: seq<Byte>) returns (chunk: nat)
      requires Ready(root) && done < len <= kbuf.Length && Passes(tables.mem, root, va, len, toUser)
      requires Copied(ram0, k0, ram, kbuf[..], Addresses(tables.mem, root, va, len, toUser), done, toUser)
      modifies `ram, kbuf
      ensures 0 < chunk <= len - done
      ensures Copied(ram0, k0, ram, kbuf[..], Addresses(tables.mem, root, va, len, toUser), done + chunk, toUser)
    {
      var pa := UserPage(root, va + done, toUser);
      var off := (va + done) % 0x1000;
      chunk := if 0x1000 - off > len - done then len - done else 0x1000 - off;
      Chunk(tables.mem, root, va, len, toUser, done, chunk);
      CopyChunk(pa, kbuf, done, chunk, toUser, ram0, k0, Addresses(tables.mem, root, va, len, toUser));
    }

    /** Copies len bytes between kbuf and user memory: an error changes nothing. */
    method Copy(root: nat, va: nat, kbuf: array<Byte>, len: nat, toUser: bool) returns (ok: bool)
      requires Ready(root) && len <= kbuf.Length
      modifies `ram, kbuf
      ensures ok == Passes(tables.mem, root, va, len, toUser)
      ensures !ok ==> ram == old(ram) && kbuf[..] == old(kbuf[..])
      ensures ok ==>
                Copied(old(ram), old(kbuf[..]), ram, kbuf[..], Addresses(tables.mem, root, va, len, toUser), len,
                       toUser)
    {
      ok := Check(root, va, len, toUser);
      if !ok {
        return;
      }
      ghost var ram0, k0, a := ram, kbuf[..], Addresses(tables.mem, root, va, len, toUser);
      var done := 0;
      while done < len
        invariant done <= len && Copied(ram0, k0, ram, kbuf[..], a, done, toUser)
      {
        var chunk := CopyPart(root, va, kbuf, len, toUser, done, ram0, k0);
        done := done + chunk;
      }
    }
  }

  lemma Touched(va: nat, page: nat)
    requires PageOf(va) <= page && Whole(page)
    ensures PageOf(if va > page then va else page) == page
  {
  }

  /** A run of bytes inside one page. */
  lemma Chunk(mem: Memory, root: nat, va: nat, len: nat, write: bool, done: nat, chunk: nat)
    requires Passes(mem, root, va, len, write) && done + chunk <= len && chunk <= 0x1000 - (va + done) % 0x1000
    ensures var a := Addresses(mem, root, va, len, write);
            forall k :: done <= k < done + chunk ==> a[k] == UserByte(mem, root, va + done, write) + (k - done)
  {
    var a := Addresses(mem, root, va, len, write);
    forall k | done <= k < done + chunk ensures a[k] == UserByte(mem, root, va + done, write) + (k - done) {
      assert Touch(va + done) && Touch(va + k);
      InPage(va + done, k - done);
      PageByte(mem, root, va + done, write);
      PageByte(mem, root, va + k, write);
    }
  }

  ghost predicate Whole(page: nat) {
    page == PageOf(page)
  }

  lemma NextPage(page: nat)
    requires Whole(page)
    ensures Whole(page + 0x1000)
  {
  }

  lemma PageStart(v: nat)
    ensures Whole(PageOf(v)) && PageOf(v) <= v
  {
  }

  lemma InPage(v: nat, i: nat)
    requires i < 0x1000 - v % 0x1000
    ensures PageOf(v + i) == PageOf(v) && (v + i) % 0x1000 == v % 0x1000 + i
  {
  }
}
