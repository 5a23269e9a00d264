/** The physical page allocator: a used and a managed bitmap, searched next-fit. */
module PhysMem {

  /** The first page the allocator may give out, at 1 MiB. */
  const MIN_PAGE := 256

  datatype Status = Ok | Unmanaged | DoubleFree

  /** The pages of the first k that may be handed out. */
  ghost function FreeIn(used: seq<bool>, managed: seq<bool>, k: nat): (s: set<nat>)
    requires k <= |used| == |managed|
  {
    set i | 0 <= i < k && IsFree(used, managed, i)
  }

  predicate IsFree(used: seq<bool>, managed: seq<bool>, i: nat)
    requires |used| == |managed|
  {
    i < |used| && managed[i] && !used[i]
  }

  /** The k-th page from `next`, cyclically. */
  function Nth(n: nat, next: nat, k: nat): (i: nat)
    requires next < n && k < n
    ensures i == if next + k < n then next + k else next + k - n
  {
    ModLess(next + k, n);
    (next + k) % n
  }

  /** The k-th page from `next` is the first of the set. */
  ghost predicate FirstFrom(s: set<nat>, n: nat, next: nat, k: nat, page: nat) {
    next < n && k < n && Nth(n, next, k) == page && page in s && forall j | 0 <= j < k :: Nth(n, next, j) !in s
  }

  lemma ModLess(x: nat, n: nat)
    requires 0 < n && x < 2 * n
    ensures x % n == if x < n then x else x - n
  {
    if x < n {
      assert x == 0 * n + x;
    } else {
      assert x == 1 * n + (x - n);
    }
  }

  /** Every page comes up within one round from any start. */
  lemma Round(used: seq<bool>, managed: seq<bool>, next: nat)
    requires next < |used| == |managed|
    requires forall k | 0 <= k < |used| :: !IsFree(used, managed, Nth(|used|, next, k))
    ensures FreeIn(used, managed, |used|) == {}
  {
    forall i | 0 <= i < |used| ensures !IsFree(used, managed, i) {
      var k := if i >= next then i - next else i + |used| - next;
      assert Nth(|used|, next, k) == i;
    }
  }

  lemma TakeFree(used: seq<bool>, managed: seq<bool>, i: nat)
    requires |used| == |managed| && IsFree(used, managed, i)
    ensures FreeIn(used[i := true], managed, |used|) == FreeIn(used, managed, |used|) - {i}
  {
  }

  /** Page i joins: managed and unused. */
  lemma JoinFree(used: seq<bool>, managed: seq<bool>, i: nat)
    requires i < |used| == |managed| && !managed[i]
    ensures FreeIn(used[i := false], managed[i := true], |used|) == FreeIn(used, managed, |used|) + {i}
    ensures i !in FreeIn(used, managed, |used|)
  {
  }

  class Pmm {
    const used: array<bool>
    const managed: array<bool>
    var next: nat
    var freePages: nat

    ghost predicate Valid()
      reads this, used, managed
    {
      && 0 < used.Length == managed.Length && used != managed && next < used.Length
      && freePages == |Free()| && (forall i | 0 <= i < managed.Length && managed[i] :: i >= MIN_PAGE)
    }

    ghost function Free(): set<nat>
      reads this, used, managed
      requires used.Length == managed.Length
    {
      FreeIn(used[..], managed[..], used.Length)
    }

    /** No page is managed yet. */
    constructor (n: nat)
      requires n > 0
      ensures Valid() && fresh(used) && fresh(managed) && Free() == {} && used.Length == n
    {
      used := new bool[n](i => true);
      managed := new bool[n](i => false);
      next, freePages := 0, 0;
    }

    /** The pages from first up to last join, except those that hold the bitmaps and those already in. */
    method AddPages(first: nat, last: nat, storeFirst: nat, storeLast: nat) returns (added: nat)
      requires Valid()
      modifies this`freePages, used, managed
      ensures Valid() && freePages == old(freePages) + added
      ensures forall i | 0 <= i < managed.Length ::
                managed[i] == (old(managed[i]) ||
                               (MIN_PAGE <= i && first <= i < last && !(storeFirst <= i < storeLast)))
      ensures forall i | 0 <= i < managed.Length :: used[i] == (old(used[i]) && old(managed[i]) == managed[i])
    {
      added := 0;
      var i := if first < MIN_PAGE then MIN_PAGE else first;
      var end := if last > used.Length then used.Length else last;
      ghost var start := i;
      while i < end
        invariant start <= i && (i <= end || i == start) && added == |Free()| - |old(Free())|
        invariant freePages == old(freePages)
        invariant forall k | 0 <= k < managed.Length ::
                    managed[k] == (old(managed[k]) || (start <= k < i && !(storeFirst <= k < storeLast)))
        invariant forall k | 0 <= k < managed.Length :: used[k] == (old(used[k]) && old(managed[k]) == managed[k])
      {
        if !managed[i] && !(storeFirst <= i < storeLast) {
          JoinFree(used[..], managed[..], i);
          ghost var u, m := used[..], managed[..];
          managed[i], used[i] := true, false;
          assert used[..] == u[i := false] && managed[..] == m[i := true];
          added := added + 1;
        }
        i := i + 1;
      }
      freePages := freePages + added;
    }

    /** The next free page at or after `next`, cyclically; 0 only when there is none. */
    method Alloc() returns (page: nat)
      requires Valid()
      modifies this`next, this`freePages, used
      ensures Valid() && (page == 0 <==> old(Free()) == {})
      ensures page == 0 ==> Free() == old(Free())
      ensures page != 0 ==> page in old(Free()) && Free() == old(Free()) - {page} && freePages == old(freePages) - 1
      ensures page != 0 ==> exists k :: FirstFrom(old(Free()), used.Length, old(next), k, page)
    {
      page := 0;
      if freePages == 0 {
        return;
      }
      var n := used.Length;
      ghost var u, m := used[..], managed[..];
      for k := 0 to n
        invariant forall j | 0 <= j < k :: !IsFree(u, m, Nth(n, next, j))
        invariant used[..] == u && managed[..] == m && next == old(next) && freePages == old(freePages)
      {
        var i := Nth(n, next, k);
        if managed[i] && !used[i] {
          TakeFree(u, m, i);
          used[i] := true;
          assert used[..] == u[i := true];
          freePages := freePages - 1;
          next := if i + 1 == n then 0 else i + 1;
          assert FirstFrom(old(Free()), n, old(next), k, i);
          return i;
        }
      }
      Round(u, m, next);
    }

    /** Gives a page back; refused when it is not managed or is free already. */
    method Release(page: nat) returns (st: Status)
      requires Valid()
      modifies this`freePages, used
      ensures Valid()
      ensures st == (if page >= managed.Length || !managed[page] then Unmanaged
                     else if page in old(Free()) then DoubleFree else Ok)
      ensures Free() == if st == Ok then old(Free()) + {page} else old(Free())
    {
      if page >= managed.Length || !managed[page] {
        return Unmanaged;
      }
      if !used[page] {
        return DoubleFree;
      }
      used[page] := false;
      assert Free() == old(Free()) + {page};
      freePages := freePages + 1;
      return Ok;
    }
  }
}
