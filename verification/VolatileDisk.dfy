/** A block device with a volatile write cache: durable blocks plus the ordered list of writes
    that no flush has covered yet.  A read gives the last write; after a crash a
    block holds the medium's content, one of its cached writes, or something torn. */
module VolatileDisk {

  /** A write of one block that may still be only in the cache. */
  datatype CachedWrite<T> = CachedWrite(blk: nat, data: T)

  datatype Disk<T> = Disk(durable: seq<T>, pending: seq<CachedWrite<T>>)

  ghost predicate InRange<T>(d: Disk<T>) {
    forall w <- d.pending :: w.blk < |d.durable|
  }

  /** What reads return: the durable blocks overlaid with the cached writes, oldest first. */
  function Overlay<T>(blocks: seq<T>, writes: seq<CachedWrite<T>>): (r: seq<T>)
    requires forall w <- writes :: w.blk < |blocks|
    ensures |r| == |blocks|
    decreases |writes|
  {
    if writes == [] then blocks
    else
      var k := |writes| - 1;
      Overlay(blocks, writes[..k])[writes[k].blk := writes[k].data]
  }

  /** For every block, the set of contents it may have after a crash. */
  ghost function Survivors<T>(blocks: seq<T>, writes: seq<CachedWrite<T>>, torn: T): (r: seq<set<T>>)
    requires forall w <- writes :: w.blk < |blocks|
    ensures |r| == |blocks|
    decreases |writes|
  {
    if writes == [] then seq(|blocks|, i requires 0 <= i < |blocks| => {blocks[i]})
    else
      var k := |writes| - 1;
      var r := Survivors(blocks, writes[..k], torn);
      r[writes[k].blk := r[writes[k].blk] + {writes[k].data, torn}]
  }

  function View<T>(d: Disk<T>): (r: seq<T>)
    requires InRange(d)
    ensures |r| == |d.durable|
  {
    Overlay(d.durable, d.pending)
  }

  ghost function Maybe<T>(d: Disk<T>, torn: T): (r: seq<set<T>>)
    requires InRange(d)
    ensures |r| == |d.durable|
  {
    Survivors(d.durable, d.pending, torn)
  }

  /** What a read returns is always one of the survivors. */
  lemma {:induction false} ViewSurvives<T>(blocks: seq<T>, writes: seq<CachedWrite<T>>, torn: T)
    requires forall w <- writes :: w.blk < |blocks|
    ensures forall b | 0 <= b < |blocks| :: Overlay(blocks, writes)[b] in Survivors(blocks, writes, torn)[b]
    decreases |writes|
  {
    if writes != [] {
      ViewSurvives(blocks, writes[..|writes| - 1], torn);
    }
  }

  /** A write of `data` at `blk` came back as `ok`.  Blocks outside the range are untouched.
      After success every block of the range reads back; after an error each of them was
      left alone, written, or torn, and nothing that reads do not show can survive. */
  ghost predicate Wrote<T>(v: seq<T>, m: seq<set<T>>, v': seq<T>, m': seq<set<T>>,
                           blk: nat, data: seq<T>, torn: T, ok: bool)
    requires |m| == |v|
  {
    && |v'| == |v| == |m'|
    && (forall b | 0 <= b < |v| && !(blk <= b < blk + |data|) :: v'[b] == v[b] && m'[b] <= m[b])
    && (ok ==> forall b | blk <= b < blk + |data| && b < |v| ::
          v'[b] == data[b - blk] && m'[b] <= m[b] + {data[b - blk], torn})
    && (!ok ==> forall b | blk <= b < blk + |data| && b < |v| ::
          || (v'[b] == v[b] && m'[b] <= m[b])
          || (v'[b] == torn && m'[b] <= m[b] + {torn})
          || (v'[b] == data[b - blk] && m'[b] <= m[b] + {data[b - blk], torn}))
  }

  /** The two disks differ at most in the n blocks from `blk` on. */
  ghost predicate SameOutside<T>(v: seq<T>, v': seq<T>, blk: nat, n: nat) {
    |v'| == |v| && forall b | 0 <= b < |v| && !(blk <= b < blk + n) :: v'[b] == v[b]
  }

  predicate Stored<T(==)>(v: seq<T>, blk: nat, data: seq<T>) {
    blk + |data| <= |v| && v[blk..blk + |data|] == data
  }

  /** Two writes of adjacent ranges, the second only if the first succeeded, are one write. */
  lemma WroteParts<T>(v0: seq<T>, m0: seq<set<T>>, v1: seq<T>, m1: seq<set<T>>, v2: seq<T>, m2: seq<set<T>>,
                      blk: nat, data: seq<T>, k: nat, torn: T, ok: bool)
    requires |m0| == |v0| && |m1| == |v1| && k <= |data|
    requires Wrote(v0, m0, v1, m1, blk, data[..k], torn, true)
    requires Wrote(v1, m1, v2, m2, blk + k, data[k..], torn, ok)
    ensures Wrote(v0, m0, v2, m2, blk, data, torn, ok)
  {
  }

  lemma WrotePrefix<T>(v: seq<T>, m: seq<set<T>>, v': seq<T>, m': seq<set<T>>, blk: nat, data: seq<T>, k: nat, torn: T)
    requires |m| == |v| && k <= |data|
    requires Wrote(v, m, v', m', blk, data[..k], torn, false)
    ensures Wrote(v, m, v', m', blk, data, torn, false)
  {
  }

  /** One block more. */
  lemma WroteNext<T>(v0: seq<T>, m0: seq<set<T>>, v: seq<T>, m: seq<set<T>>, v': seq<T>, m': seq<set<T>>,
                     blk: nat, data: seq<T>, i: nat, torn: T)
    requires |m0| == |v0| && |m| == |v| && i < |data| && blk + |data| <= |v|
    requires Wrote(v0, m0, v, m, blk, data[..i], torn, true)
    requires v' == v[blk + i := data[i]] && m' == m[blk + i := m[blk + i] + {data[i], torn}]
    ensures Wrote(v0, m0, v', m', blk, data[..i + 1], torn, true)
  {
  }

  /** An error at block i, which may have been torn. */
  lemma WroteStop<T>(v0: seq<T>, m0: seq<set<T>>, v: seq<T>, m: seq<set<T>>, v': seq<T>, m': seq<set<T>>,
                     blk: nat, data: seq<T>, i: nat, torn: T)
    requires |m0| == |v0| && |m| == |v| && i < |data| && blk + |data| <= |v|
    requires Wrote(v0, m0, v, m, blk, data[..i], torn, true)
    requires (v' == v && m' == m) || (v' == v[blk + i := torn] && m' == m[blk + i := m[blk + i] + {torn, torn}])
    ensures Wrote(v0, m0, v', m', blk, data, torn, false)
  {
  }

  lemma WroteShrunk<T>(v0: seq<T>, m0: seq<set<T>>, v: seq<T>, m: seq<set<T>>, v': seq<T>, m': seq<set<T>>,
                       blk: nat, data: seq<T>, torn: T, ok: bool)
    requires |m0| == |v0| && |m| == |v| && Wrote(v0, m0, v, m, blk, data, torn, ok) && Shrunk(v, m, v', m')
    ensures Wrote(v0, m0, v', m', blk, data, torn, ok)
  {
  }

  lemma WroteView<T>(v: seq<T>, m: seq<set<T>>, v': seq<T>, m': seq<set<T>>, blk: nat, data: seq<T>, torn: T, ok: bool)
    requires |m| == |v| && blk + |data| <= |v| && Wrote(v, m, v', m', blk, data, torn, ok)
    ensures SameOutside(v, v', blk, |data|) && (ok ==> Stored(v', blk, data))
  {
  }

  /** A successful flush: reads are unchanged and each block has one survivor. */
  ghost predicate Flushed<T>(v: seq<T>, v': seq<T>, m': seq<set<T>>) {
    && v' == v
    && |m'| == |v|
    && forall b | 0 <= b < |v| :: m'[b] == {v[b]}
  }

  /** Reads are unchanged and no block gained a survivor. */
  ghost predicate Shrunk<T>(v: seq<T>, m: seq<set<T>>, v': seq<T>, m': seq<set<T>>)
    requires |m| == |v|
  {
    && v' == v
    && |m'| == |v|
    && forall b | 0 <= b < |v| :: m'[b] <= m[b]
  }

  /** After power returns every block holds one of its survivors, and only that. */
  ghost predicate Crashed<T>(m: seq<set<T>>, v': seq<T>, m': seq<set<T>>) {
    && |v'| == |m| == |m'|
    && forall b | 0 <= b < |m| :: v'[b] in m[b] && m'[b] == {v'[b]}
  }

  /** Moving the first cached write to the medium changes no read and adds nothing a crash could leave. */
  lemma {:induction false} EvictOldest<T>(blocks: seq<T>, writes: seq<CachedWrite<T>>, torn: T)
    requires writes != [] && forall w <- writes :: w.blk < |blocks|
    ensures var blocks' := blocks[writes[0].blk := writes[0].data];
      && Overlay(blocks', writes[1..]) == Overlay(blocks, writes)
      && forall b | 0 <= b < |blocks| ::
           Survivors(blocks', writes[1..], torn)[b] <= Survivors(blocks, writes, torn)[b]
    decreases |writes|
  {
    var blocks' := blocks[writes[0].blk := writes[0].data];
    var k := |writes| - 1;
    if k == 0 {
      assert writes[..0] == [] && writes[1..] == [];
    } else {
      EvictOldest(blocks, writes[..k], torn);
      assert writes[..k][1..] == writes[1..][..k - 1];
    }
  }

  /** The device: a write or a flush may fail, a read does not; the cache may persist early. */
  class Device<T(==)> {
    var disk: Disk<T>
    const torn: T
    ghost var faults: nat  // how many requests have failed

    ghost predicate Valid()
      reads this
    {
      InRange(disk)
    }

    /** What reads return. */
    function V(): (r: seq<T>)
      reads this
      requires Valid()
      ensures |r| == |disk.durable|
    {
      View(disk)
    }

    /** What may survive a crash, block by block. */
    ghost function M(): (r: seq<set<T>>)
      reads this
      requires Valid()
      ensures |r| == |V()| && forall b | 0 <= b < |r| :: V()[b] in r[b]
    {
      ViewSurvives(disk.durable, disk.pending, torn);
      Maybe(disk, torn)
    }

    constructor (blocks: seq<T>, torn: T)
      ensures Valid() && disk == Disk(blocks, []) && this.torn == torn
    {
      this.faults := 0;
      this.disk := Disk(blocks, []);
      this.torn := torn;
    }

    /** Some of the oldest cached writes reach the medium early. */
    method PersistSome()
      requires Valid()
      modifies this`disk
      ensures Valid() && Shrunk(old(V()), old(M()), V(), M())
    {
      var n: nat := *;
      while n > 0 && disk.pending != []
        invariant Valid() && Shrunk(old(V()), old(M()), V(), M())
        decreases n
      {
        EvictOldest(disk.durable, disk.pending, torn);
        var w := disk.pending[0];
        disk := Disk(disk.durable[w.blk := w.data], disk.pending[1..]);
        n := n - 1;
      }
    }

    method Write(blk: nat, data: seq<T>) returns (ok: bool)
      requires Valid() && blk + |data| <= |V()|
      modifies this
      ensures Valid() && Wrote(old(V()), old(M()), V(), M(), blk, data, torn, ok)
      ensures faults == old(faults) + (if ok then 0 else 1)
    {
      ok := true;
      var i := 0;
      ghost var v0, m0 := V(), M();
      while i < |data| && ok
        invariant 0 <= i <= |data| && Valid() && (!ok ==> i < |data|) && faults == old(faults) + (if ok then 0 else 1)
        invariant Wrote(v0, m0, V(), M(), blk, if ok then data[..i] else data, torn, ok)
        decreases |data| - i, if ok then 1 else 0
      {
        ghost var v, m := V(), M();
        if * {
          ok := false;
          faults := faults + 1;
          if * {
            Append(blk + i, torn);
          }
          WroteStop(v0, m0, v, m, V(), M(), blk, data, i, torn);
        } else {
          Append(blk + i, data[i]);
          WroteNext(v0, m0, v, m, V(), M(), blk, data, i, torn);
          i := i + 1;
        }
      }
      assert data[..|data|] == data;
      ghost var v, m := V(), M();
      PersistSome();
      WroteShrunk(v0, m0, v, m, V(), M(), blk, data, torn, ok);
    }

    method Append(b: nat, x: T)
      requires Valid() && b < |V()|
      modifies this`disk
      ensures Valid() && V() == old(V())[b := x]
      ensures M() == old(M())[b := old(M())[b] + {x, torn}]
    {
      ghost var ws := disk.pending;
      disk := disk.(pending := disk.pending + [CachedWrite(b, x)]);
      assert disk.pending[..|ws|] == ws;
    }

    method Flush() returns (ok: bool)
      requires Valid()
      modifies this
      ensures Valid()
      ensures ok ==> Flushed(old(V()), V(), M())
      ensures !ok ==> Shrunk(old(V()), old(M()), V(), M())
      ensures faults == old(faults) + (if ok then 0 else 1)
    {
      PersistSome();
      ok := *;
      if ok {
        disk := Disk(View(disk), []);
      } else {
        faults := faults + 1;
      }
    }

    /** Power fails and returns: of the cached writes any subset survives, whole or torn. */
    method PowerCycle()
      requires Valid()
      modifies this`disk
      ensures Valid() && Crashed(old(M()), V(), M())
    {
      var blocks, ws := disk.durable, disk.pending;
      var i := 0;
      while i < |ws|
        invariant 0 <= i <= |ws| && |blocks| == |disk.durable|
        invariant forall b | 0 <= b < |blocks| :: blocks[b] in Survivors(disk.durable, ws[..i], torn)[b]
      {
        assert ws[..i + 1][..i] == ws[..i];
        if * {
          blocks := blocks[ws[i].blk := ws[i].data];
        } else if * {
          blocks := blocks[ws[i].blk := torn];
        }
        i := i + 1;
      }
      assert ws[..i] == ws;
      disk := Disk(blocks, []);
    }
  }
}
