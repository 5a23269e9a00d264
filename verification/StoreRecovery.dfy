/** Reading a store back: which generation a mount accepts, and which blocks it keeps in use. */
module StoreRecovery {
  import opened Common
  import opened StoreFormat

  datatype SlotState = Empty | BadCrc | BadHeader | BadRoot | BadData | Current | Older

  datatype SlotInfo = SlotInfo(state: SlotState, gen: nat, storeId: nat, blocks: nat,
                               rootBlk: nat, rootCrc: nat)

  function MakeSuper(r: Root, blk: nat, blocks: nat, sum: Checksums): Super {
    Super(FORMAT_VERSION, BLOCK, blocks, r.storeId, r.gen, blk, sum.root(r), r.retain, r.bootId)
  }

  function ReadSlot(v: seq<Block>, slot: nat): SlotInfo
    requires slot < |v|
  {
    match v[slot]
    case SuperBlock(sb) =>
      var bad := sb.version != FORMAT_VERSION || sb.blockSize != BLOCK || sb.gen == 0 ||
                 sb.blockCount < MIN_BLOCKS || sb.blockCount > Min(|v|, MAX_BLOCKS);
      SlotInfo(if bad then BadHeader else Older, sb.gen, sb.storeId, sb.blockCount, sb.rootBlk, sb.rootCrc)
    case Junk => SlotInfo(BadCrc, 0, 0, 0, 0, 0)
    case _ => SlotInfo(Empty, 0, 0, 0, 0, 0)
  }

  /** The root at block `blk` if it verifies; 0 for `gen` or `crc` means not checked. */
  function LoadRoot(v: seq<Block>, blocks: nat, f: Ref, sum: Checksums): (r: Option<Root>)
    ensures r.Some? ==> FIRST_DATA <= f.blk < blocks && RootSane(r.value, blocks)
  {
    if f.blk < FIRST_DATA || f.blk >= blocks || f.blk >= |v| then None
    else if !v[f.blk].RootBlock? then None
    else
      var r := v[f.blk].root;
      if (f.crc != 0 && sum.root(r) != f.crc) || (f.gen != 0 && r.gen != f.gen) || !RootSane(r, blocks)
      then None
      else Some(r)
  }

  /** The root that a slot points to. */
  function SlotRoot(v: seq<Block>, si: SlotInfo, sum: Checksums): Option<Root> {
    LoadRoot(v, si.blocks, Ref(si.gen, si.rootBlk, si.rootCrc), sum)
  }

  function TrySlot(v: seq<Block>, si: SlotInfo, sum: Checksums): SlotState {
    match SlotRoot(v, si, sum)
    case None => BadRoot
    case Some(r) =>
      if r.storeId != si.storeId then BadRoot
      else if forall o <- r.objs :: ExtentOk(v, o, sum) then Current
      else BadData
  }

  /** The slot to try first: the newest candidate, slot A on a tie. */
  function FirstChoice(a: SlotInfo, b: SlotInfo): nat {
    if b.state == Older && (a.state != Older || b.gen > a.gen) then 1 else 0
  }

  predicate Mountable(v: seq<Block>, slot: nat, sum: Checksums)
    requires slot < |v|
  {
    var si := ReadSlot(v, slot);
    si.state == Older && TrySlot(v, si, sum) == Current
  }

  /** The slot whose generation a mount accepts. */
  function MountSlot(v: seq<Block>, sum: Checksums): (r: Option<nat>)
    requires |v| >= MIN_BLOCKS
    ensures r.Some? ==> r.value < 2
  {
    var first := FirstChoice(ReadSlot(v, 0), ReadSlot(v, 1));
    if Mountable(v, first, sum) then Some(first)
    else if Mountable(v, 1 - first, sum) then Some(1 - first)
    else None
  }

  /** Two extents share no block. */
  ghost predicate Disjoint(o: Obj, p: Obj) {
    Span(o.blk, o.nblk) !! Span(p.blk, p.nblk)
  }

  /** The objects of a root have names and blocks of their own, and the blocks are on the device, behind the
      superblocks. */
  lemma SaneApart(r: Root, n: nat, i: nat, j: nat)
    requires RootSane(r, n) && i < |r.objs| && j < |r.objs|
    ensures forall b <- Span(r.objs[i].blk, r.objs[i].nblk) :: FIRST_DATA <= b < n
    ensures i != j ==> Disjoint(r.objs[i], r.objs[j]) && r.objs[i].name != r.objs[j].name
  {
    var o, p := r.objs[i], r.objs[j];
    assert ObjShaped(o, r.gen, r.nextOid, n);
    if i != j {
      assert if i < j then ObjsApart(o, p) else ObjsApart(p, o);
    }
  }

  /** Retained generations are older than the root and differ from one another. */
  lemma {:induction false} SaneHistory(r: Root, n: nat, i: nat, j: nat)
    requires RootSane(r, n) && i < j < |r.hist|
    ensures 0 < r.hist[j].gen < r.hist[i].gen < r.gen
    decreases j
  {
    if i + 1 < j {
      SaneHistory(r, n, i, j - 1);
    } else if i > 0 {
      SaneHistory(r, n, i - 1, i);
    }
  }

  /** Whatever is on the device: the slot that a mount accepts leads to a root that has the checksum noted down, of
      that store and generation, whose objects pass theirs and share no block; and a slot of a newer generation
      does not. */
  lemma MountAccepts(v: seq<Block>, sum: Checksums, slot: nat)
    requires |v| >= MIN_BLOCKS && MountSlot(v, sum) == Some(slot)
    ensures slot < 2 && v[slot].SuperBlock?
    ensures var sb := v[slot].super;
            && FIRST_DATA <= sb.rootBlk < sb.blockCount <= |v| && v[sb.rootBlk].RootBlock?
            && var r := v[sb.rootBlk].root;
               && r.gen == sb.gen > 0 && r.storeId == sb.storeId && (sb.rootCrc == 0 || sum.root(r) == sb.rootCrc)
               && (forall o <- r.objs :: ExtentOk(v, o, sum))
               && (forall i: nat, j: nat | i < j < |r.objs| :: Disjoint(r.objs[i], r.objs[j]))
    ensures Mountable(v, 1 - slot, sum) ==> v[1 - slot].SuperBlock? && v[1 - slot].super.gen <= v[slot].super.gen
  {
    var si := ReadSlot(v, slot);
    var r := SlotRoot(v, si, sum).value;
    forall i: nat, j: nat | i < j < |r.objs| ensures Disjoint(r.objs[i], r.objs[j]) {
      SaneApart(r, si.blocks, i, j);
    }
  }

  function SlotGen(si: SlotInfo): nat {
    if si.state == Older || si.state == BadHeader then si.gen else 0
  }

  function MaxGen(v: seq<Block>): nat
    requires |v| >= MIN_BLOCKS
  {
    var a, b := SlotGen(ReadSlot(v, 0)), SlotGen(ReadSlot(v, 1));
    if b > a then b else a
  }

  // ---- what a mount reports ----

  /** A candidate that did not verify. */
  datatype Reject = Reject(gen: nat, state: SlotState)

  /** The state and the generation of each slot, the slot and the generation that was mounted, the highest
      generation number seen, whether a newer generation was rejected, the first one that was, and how many
      of the retained generations cannot be read. */
  datatype Report = Report(states: seq<SlotState>, gens: seq<nat>, slot: Option<nat>, gen: nat, maxGen: nat,
                           fallback: bool, rejected: Option<Reject>, damaged: nat)

  /** What is found out about a slot: a candidate is tried unless a better one has verified. */
  function FinalState(v: seq<Block>, slot: nat, sum: Checksums): SlotState
    requires |v| >= MIN_BLOCKS && slot < 2
  {
    var si := ReadSlot(v, slot);
    var first := FirstChoice(ReadSlot(v, 0), ReadSlot(v, 1));
    if si.state == Older && (slot == first || !Mountable(v, first, sum)) then TrySlot(v, si, sum) else si.state
  }

  function Rejection(v: seq<Block>, sum: Checksums): Option<Reject>
    requires |v| >= MIN_BLOCKS
  {
    var first := FirstChoice(ReadSlot(v, 0), ReadSlot(v, 1));
    var si := ReadSlot(v, first);
    if si.state == Older && TrySlot(v, si, sum) != Current then Some(Reject(si.gen, TrySlot(v, si, sum))) else None
  }

  function Damaged(v: seq<Block>, blocks: nat, fs: seq<Ref>, sum: Checksums): nat {
    if fs == [] then 0
    else Damaged(v, blocks, fs[..|fs| - 1], sum) + if LoadRoot(v, blocks, fs[|fs| - 1], sum).None? then 1 else 0
  }

  /** The references that cannot be followed. */
  ghost function Unloadable(v: seq<Block>, blocks: nat, fs: seq<Ref>, sum: Checksums): set<int> {
    set i | 0 <= i < |fs| && LoadRoot(v, blocks, fs[i], sum) == None
  }

  lemma UnloadableMore(v: seq<Block>, blocks: nat, fs: seq<Ref>, sum: Checksums, k: nat)
    requires |fs| == k + 1
    ensures var s := Unloadable(v, blocks, fs[..k], sum);
            k !in s && Unloadable(v, blocks, fs, sum) == if LoadRoot(v, blocks, fs[k], sum) == None then s + {k} else s
  {
    var s, t := Unloadable(v, blocks, fs[..k], sum), Unloadable(v, blocks, fs, sum);
    forall i ensures i in t <==> i in s || (i == k && LoadRoot(v, blocks, fs[k], sum) == None) {
      assert 0 <= i < k ==> fs[..k][i] == fs[i];
    }
  }

  /** It is their number. */
  lemma {:induction false} DamagedCount(v: seq<Block>, blocks: nat, fs: seq<Ref>, sum: Checksums)
    ensures Damaged(v, blocks, fs, sum) == |Unloadable(v, blocks, fs, sum)|
  {
    if fs != [] {
      DamagedCount(v, blocks, fs[..|fs| - 1], sum);
      UnloadableMore(v, blocks, fs, sum, |fs| - 1);
    }
  }

  function MountReport(v: seq<Block>, sum: Checksums): Report
    requires |v| >= MIN_BLOCKS
  {
    var slot, rejected := MountSlot(v, sum), Rejection(v, sum);
    var states := [FinalState(v, 0, sum), FinalState(v, 1, sum)];
    var gens := [SlotGen(ReadSlot(v, 0)), SlotGen(ReadSlot(v, 1))];
    if slot.None? then Report(states, gens, None, 0, MaxGen(v), rejected.Some?, rejected, 0)
    else
      var si := ReadSlot(v, slot.value);
      match SlotRoot(v, si, sum)
      case None => Report(states, gens, slot, 0, MaxGen(v), rejected.Some?, rejected, 0)
      case Some(r) =>
        Report(states, gens, slot, r.gen, MaxGen(v), rejected.Some? && rejected.value.gen >= r.gen, rejected,
               Damaged(v, si.blocks, Refs(r), sum))
  }

  /** A mount reports a fallback exactly if the generation it accepted is not that of the newest candidate, and
      then the newest is the one it names. */
  lemma FallbackIff(v: seq<Block>, sum: Checksums)
    requires |v| >= MIN_BLOCKS && MountSlot(v, sum).Some?
    ensures var rep, first := MountReport(v, sum), FirstChoice(ReadSlot(v, 0), ReadSlot(v, 1));
      && (rep.fallback <==> rep.slot != Some(first))
      && (rep.fallback ==>
            && rep.rejected == Some(Reject(ReadSlot(v, first).gen, rep.states[first]))
            && rep.rejected.value.gen >= rep.gen)
      && rep.slot.value < 2 && rep.states[rep.slot.value] == Current && rep.gens[rep.slot.value] == rep.gen
  {
    var slot := MountSlot(v, sum).value;
    var si := ReadSlot(v, slot);
    assert Mountable(v, slot, sum) && SlotRoot(v, si, sum).Some?;
  }

  // ---- blocks in use ----

  function Refs(r: Root): (fs: seq<Ref>)
    ensures |fs| == |r.hist| + |r.pins|
  {
    r.hist + seq(|r.pins|, i requires 0 <= i < |r.pins| => r.pins[i].ref)
  }

  function Marked(r: Root, blk: nat, blocks: nat): set<nat> {
    set b | b in RootBlocks(r, blk) && b < blocks
  }

  function RefUsed(v: seq<Block>, blocks: nat, f: Ref, sum: Checksums): set<nat> {
    (if f.blk < blocks then {f.blk} else {}) +
    match LoadRoot(v, blocks, f, sum)
    case None => {}
    case Some(r) => Marked(r, f.blk, blocks)
  }

  function RefsUsed(v: seq<Block>, blocks: nat, fs: seq<Ref>, sum: Checksums): set<nat> {
    if fs == [] then {}
    else RefsUsed(v, blocks, fs[..|fs| - 1], sum) + RefUsed(v, blocks, fs[|fs| - 1], sum)
  }

  /** The superblocks and every block that the root, its history or its pins reference. */
  function UsedBlocks(v: seq<Block>, blocks: nat, r: Root, blk: nat, sum: Checksums): set<nat> {
    {0, 1} + Marked(r, blk, blocks) + RefsUsed(v, blocks, Refs(r), sum)
  }

  lemma {:induction false} RefsUsedHas(v: seq<Block>, blocks: nat, fs: seq<Ref>, sum: Checksums, f: Ref)
    requires f in fs
    ensures RefUsed(v, blocks, f, sum) <= RefsUsed(v, blocks, fs, sum)
    decreases |fs|
  {
    var k := |fs| - 1;
    if f != fs[k] {
      assert f in fs[..k];
      RefsUsedHas(v, blocks, fs[..k], sum, f);
    }
  }

  lemma {:induction false} RefsUsedOnly(v: seq<Block>, blocks: nat, fs: seq<Ref>, sum: Checksums, b: nat)
    returns (f: Ref)
    requires b in RefsUsed(v, blocks, fs, sum)
    ensures f in fs && b in RefUsed(v, blocks, f, sum)
    decreases |fs|
  {
    var k := |fs| - 1;
    if b in RefUsed(v, blocks, fs[k], sum) {
      f := fs[k];
    } else {
      f := RefsUsedOnly(v, blocks, fs[..k], sum, b);
    }
  }

  /** Writing outside the blocks in use does not change which blocks are in use. */
  lemma {:induction false} RefsUsedFrame(v: seq<Block>, v': seq<Block>, blocks: nat, fs: seq<Ref>, sum: Checksums)
    requires |v'| == |v| && blocks <= |v|
    requires forall f <- fs :: f.blk < blocks ==> v'[f.blk] == v[f.blk]
    ensures RefsUsed(v', blocks, fs, sum) == RefsUsed(v, blocks, fs, sum)
    decreases |fs|
  {
    if fs != [] {
      var k := |fs| - 1;
      assert fs[k] in fs;
      RefsUsedFrame(v, v', blocks, fs[..k], sum);
    }
  }
}
