/** The store: transactions over copy-on-write generations with a four-step commit. */
module NxStore {
  import opened Common
  import opened StoreFormat
  import opened StoreRecovery
  import opened StoreInvariant
  import opened StoreTransaction
  import opened VolatileDisk

  datatype Status =
    | Ok | IoError | NoRoot | NoSpace | ObjFull | NotFound | TooBig | BadName | Corrupt
    | Pruned | BadState | PinFull | Exists | BadFormat | OutcomeUnknown

  /** The index of the object called `name`, or -1. */
  method FindIndex(objs: seq<Obj>, name: string) returns (idx: int)
    ensures -1 <= idx < |objs|
    ensures idx >= 0 ==> objs[idx].name == name
    ensures idx < 0 ==> forall o <- objs :: o.name != name
  {
    idx := 0;
    while idx < |objs|
      invariant 0 <= idx <= |objs|
      invariant forall i | 0 <= i < idx :: objs[i].name != name
    {
      if objs[idx].name == name {
        return;
      }
      idx := idx + 1;
    }
    idx := -1;
  }

  function WithoutPin(pins: seq<Pin>, name: string): seq<Pin> {
    if pins == [] then [] else if pins[0].name == name then pins[1..] else [pins[0]] + WithoutPin(pins[1..], name)
  }

  lemma {:induction false} WithoutPinAt(pins: seq<Pin>, name: string, i: nat)
    requires i < |pins| && pins[i].name == name && forall j | 0 <= j < i :: pins[j].name != name
    ensures WithoutPin(pins, name) == pins[..i] + pins[i + 1..]
  {
    if i > 0 {
      WithoutPinAt(pins[1..], name, i - 1);
      assert pins[..i] == [pins[0]] + pins[1..][..i - 1] && pins[1..][i..] == pins[i + 1..];
    }
  }

  /** The index of the first pin called `name`, or -1. */
  method FindPin(pins: seq<Pin>, name: string) returns (idx: int)
    ensures -1 <= idx < |pins|
    ensures idx < 0 ==> forall p <- pins :: p.name != name
    ensures idx >= 0 ==> pins[idx].name == name && (exists p <- pins :: p.name == name)
                         && WithoutPin(pins, name) == pins[..idx] + pins[idx + 1..]
  {
    for i := 0 to |pins|
      invariant forall j | 0 <= j < i :: pins[j].name != name
    {
      if pins[i].name == name {
        WithoutPinAt(pins, name, i);
        assert pins[i] in pins;
        return i;
      }
    }
    return -1;
  }

  function CountFree(lo: nat, hi: nat, taken: set<nat>): (n: nat)
    requires lo <= hi
    ensures n <= hi - lo
    decreases hi - lo
  {
    if lo == hi then 0 else CountFree(lo, hi - 1, taken) + if hi - 1 in taken then 0 else 1
  }

  ghost predicate FreeRun(first: nat, n: nat, blocks: nat, taken: set<nat>) {
    FIRST_DATA <= first && first + n <= blocks && forall b | first <= b < first + n :: b !in taken
  }

  /** How a commit of the root w with objects c changes the ledger. */
  ghost predicate Committed(l: Ledger, l': Ledger, w: Root, c: Contents, done: bool) {
    && l'.truth == l.truth[w.gen := c] && l'.baseLost == TopLost(l)
    && (if done then l'.base.root == w && l'.next.None?
        else l'.base == Top(l) && (l'.next.Some? ==> l'.next.value.root == w && l'.nextLost == l'.baseLost))
  }

  lemma CommittedFrom(l: Ledger, l1: Ledger, l': Ledger, w: Root, c: Contents, done: bool)
    requires l1 == Promoted(Spent(l)) && l'.truth == l1.truth[w.gen := c] && l'.baseLost == l1.baseLost
    requires l'.next.Some? ==> l'.next.value.root == w && l'.nextLost == l'.baseLost
    requires if done then l'.base.root == w && l'.next.None? else l'.base == l1.base
    ensures Committed(l, l', w, c, done)
  {
  }

  /** There is no place for n blocks: too few are free, the reserve would be touched, or no run of free
      blocks is long enough. */
  ghost predicate NoRoom(n: nat, reserveOk: bool, blocks: nat, taken: set<nat>) {
    blocks < FIRST_DATA ||
    var free := CountFree(FIRST_DATA, blocks, taken);
    || free < n || (!reserveOk && free - n < RESERVE_BLOCKS)
    || forall k: nat :: !FreeRun(k, n, blocks, taken)
  }

  /** What a put does to the versions: at most one object is new, that called `name`, and its version
      follows the one it replaces. */
  ghost predicate PutObjs(objs: seq<Obj>, objs': seq<Obj>, name: string) {
    forall o <- objs' ::
      || o in objs
      || (o.name == name &&
          (o.version == 1 || exists p <- objs :: p.name == name && o.version == (p.version + 1) % TWO32))
  }

  /** What a read of `name` with a buffer of `cap` bytes has to return for contents c. */
  ghost predicate ReadsAs(c: Contents, name: string, cap: nat, st: Status, bytes: Bytes) {
    if name !in c then st == NotFound
    else if |c[name]| > cap then st == TooBig
    else st == Ok && bytes == c[name]
  }

  /** What has been read, followed by what is still to be read, is the object. */
  ghost predicate ReadSoFar(v: seq<Block>, o: Obj, i: nat, left: nat, bytes: Bytes)
    requires i <= o.nblk && o.blk + o.nblk <= |v|
  {
    NblkFor(left) == o.nblk - i
    && (Readable(v, o) ==> bytes + Joined(v, o.blk + i, o.nblk - i)[..left] == ObjBytes(v, o))
  }

  lemma ReadPiece(v: seq<Block>, o: Obj, i: nat, left: nat, bytes: Bytes)
    requires i < o.nblk && o.blk + o.nblk <= |v| && v[o.blk + i].DataBlock? && ReadSoFar(v, o, i, left, bytes)
    ensures var n := Min(left, BLOCK);
            n <= |v[o.blk + i].bytes| && ReadSoFar(v, o, i + 1, left - n, bytes + v[o.blk + i].bytes[..n])
  {
    var n, first, m := Min(left, BLOCK), o.blk + i, o.nblk - i;
    if Readable(v, o) {
      var rest := Joined(v, first + 1, m - 1);
      assert Joined(v, first, m) == v[first].bytes + rest;
      CutJoin(bytes, v[first].bytes, rest, n, left);
    }
  }

  lemma CutJoin(bytes: Bytes, x: Bytes, rest: Bytes, n: nat, left: nat)
    requires n <= |x| && n <= left <= |x| + |rest| && (n < |x| ==> left == n)
    ensures left - n <= |rest| && bytes + (x + rest)[..left] == bytes + x[..n] + rest[..left - n]
  {
    assert (x + rest)[..left] == x[..n] + rest[..left - n];
    assert bytes + (x[..n] + rest[..left - n]) == bytes + x[..n] + rest[..left - n];
  }

  lemma {:induction false} SpanSize(first: nat, n: nat)
    ensures |Span(first, n)| == n
  {
    if n > 0 {
      SpanSize(first, n - 1);
      assert Span(first, n) == Span(first, n - 1) + {first + n - 1};
    }
  }

  /** No block of `keep` was written. */
  ghost predicate Untouched(v: seq<Block>, v': seq<Block>, keep: set<nat>) {
    |v'| == |v| && forall b {:trigger b in keep} | b in keep && b < |v| :: v'[b] == v[b]
  }

  lemma UntouchedBoth(v: seq<Block>, v1: seq<Block>, v2: seq<Block>, keep: set<nat>, blk: nat, slot: nat)
    requires SameOutside(v, v1, blk, 1) && SameOutside(v1, v2, slot, 1) && blk !in keep
    ensures Untouched(v, v2, keep - {slot})
  {
  }

  lemma UntouchedOne(v: seq<Block>, v': seq<Block>, keep: set<nat>, blk: nat, n: nat)
    requires SameOutside(v, v', blk, n) && Span(blk, n) !! keep
    ensures Untouched(v, v', keep)
  {
    forall b | b in keep && b < |v| ensures v'[b] == v[b] {
      assert b !in Span(blk, n);
    }
  }

  /** See Key in StoreInvariant. */
  ghost predicate StoreKey(k: nat, s: Store) { true }

  class Store {
    const dev: Device<Block>
    const sum: Checksums
    var blocks: nat
    var mounted: bool
    var inTx: bool
    var txPrune: bool
    var txReserve: bool
    var curSlot: nat
    var curBlk: nat
    var maxGen: nat
    var bootId: nat
    var cur: Root
    var work: Root
    var used: set<nat>
    var txused: set<nat>
    ghost var cfg: Config
    ghost var led: Ledger
    ghost var tx: Contents  // the objects of the open transaction
    ghost var saved: nat    // the last generation that a commit reported saved

    /** The disk satisfies the invariant, so every crash keeps a saved generation. */
    ghost predicate DiskOk()
      reads this`cfg, this`led, this`saved, dev
    {
      && dev.Valid() && dev.torn == Junk && cfg.sum == sum
      && Safe(dev.V(), dev.M(), cfg, led) && saved <= led.base.root.gen
    }

    /** The memory of a mounted store agrees with the disk. */
    ghost predicate MountOk()
      reads this`mounted, this`blocks, this`cfg, this`led, this`curSlot, this`curBlk, this`cur, this`maxGen,
            this`used, dev
    {
      && dev.Valid()
      && (mounted ==>
            && blocks == cfg.n && cfg.sum == sum && Top(led) == Gen(curSlot, curBlk, cur) && maxGen == cur.gen
            && InUse(dev.V(), cfg, cur, curBlk, used))
    }

    /** The open transaction is well formed, and what it references holds the objects of `tx`. */
    ghost predicate TxState()
      reads this`cfg, this`curBlk, this`cur, this`used, this`work, this`txused, this`tx, dev
    {
      dev.Valid() && TxSafe(dev.V(), cfg, cur, curBlk, work, used, txused, tx)
    }

    /** Every operation keeps this; the parts that it does not modify it keeps by its frame. */
    ghost predicate Valid()
      reads this, dev
    {
      dev.Valid() &&
      forall k {:trigger StoreKey(k, this)} :: StoreKey(k, this) ==>
        DiskOk() && MountOk() && (mounted && inTx ==> TxState())
    }

    /** What a client of the store may know. */
    lemma ValidFacts()
      requires Valid()
      ensures DiskOk() && led.base.root.gen <= Top(led).root.gen
      ensures mounted ==> cur == Top(led).root && curBlk == Top(led).blk && blocks == cfg.n
      ensures mounted && inTx ==> forall name :: name in tx <==> exists o <- work.objs :: o.name == name
    {
      assert StoreKey(0, this);
      SafeGens(dev.V(), dev.M(), cfg, led);
      if mounted && inTx {
        TxNames(dev.V(), cfg, cur, curBlk, work, used, txused, tx);
      }
    }

    lemma InUseNow()
      requires Valid()
      ensures Safe(dev.V(), dev.M(), cfg, led) && (mounted ==> InUse(dev.V(), cfg, cur, curBlk, used))
    {
      assert StoreKey(0, this);
    }

    /** The next generation retains nothing that the current one does not, but for that one itself. */
    lemma NextRefs(text: string)
      requires Valid() && mounted && inTx
      ensures forall f <- Refs(NextRoot(text)) :: f in Retained(cfg, cur, curBlk)
      ensures (forall f <- Refs(cur) :: f.gen < cur.gen) && RETAIN_MIN <= cur.retain <= RETAIN_MAX
      ensures work.retain == cur.retain
      ensures |work.objs| == |tx|
    {
      assert StoreKey(0, this);
      TxFacts(dev.V(), cfg, cur, curBlk, work, used, txused, tx, bootId, text, KeepCount(txPrune, cur.retain));
    }

    constructor (dev: Device<Block>, sum: Checksums)
      ensures this.dev == dev && this.sum == sum && !mounted && !inTx
    {
      this.dev, this.sum, mounted, inTx := dev, sum, false, false;
      cfg := Config(0, 0, sum);
    }

    // ---- allocation ----

    /** The lowest run of n blocks that neither the retained generations nor the transaction use; 0
        exactly if there is no room. */
    method Alloc(n: nat, reserveOk: bool) returns (first: nat)
      requires n > 0 && blocks >= FIRST_DATA
      modifies this`txused
      ensures first == 0 ==> txused == old(txused)
      ensures first == 0 <==> NoRoom(n, reserveOk, blocks, used + old(txused))
      ensures first != 0 ==>
                && FreeRun(first, n, blocks, used + old(txused))
                && (forall k: nat | k < first :: !FreeRun(k, n, blocks, used + old(txused)))
                && txused == old(txused) + Span(first, n)
      ensures |txused| <= |old(txused)| + if first == 0 then 0 else n
    {
      ghost var taken := used + txused;
      var free, b := 0, FIRST_DATA;
      while b < blocks
        invariant FIRST_DATA <= b <= blocks && free == CountFree(FIRST_DATA, b, taken)
      {
        if b !in txused && b !in used {
          free := free + 1;
        }
        b := b + 1;
      }
      if free < n || (!reserveOk && free - n < RESERVE_BLOCKS) {
        return 0;
      }
      var run := 0;
      b := FIRST_DATA;
      while b < blocks
        invariant FIRST_DATA <= b <= blocks && 0 <= run < n && run <= b - FIRST_DATA && txused == old(txused)
        invariant forall j | b - run <= j < b :: j !in taken
        invariant run < b - FIRST_DATA ==> b - run - 1 in taken
        invariant forall k: nat | k + n <= b :: !FreeRun(k, n, blocks, taken)
      {
        var isFree := b !in txused && b !in used;
        run := if isFree then run + 1 else 0;
        if run == n {
          first := b + 1 - n;
          assert FreeRun(first, n, blocks, taken);
          SpanSize(first, n);
          txused := txused + Span(first, n);
          return;
        }
        NoRunYet(b, run, n, blocks, taken);
        b := b + 1;
      }
      return 0;
    }

    static lemma NoRunYet(b: nat, run: nat, n: nat, blocks: nat, taken: set<nat>)
      requires FIRST_DATA <= b < blocks && run < n && run <= b + 1 - FIRST_DATA
      requires run < b + 1 - FIRST_DATA ==> b - run in taken
      requires forall k: nat | k + n <= b :: !FreeRun(k, n, blocks, taken)
      ensures forall k: nat | k + n <= b + 1 :: !FreeRun(k, n, blocks, taken)
    {
      forall k: nat | k + n == b + 1 ensures !FreeRun(k, n, blocks, taken) {
        if FIRST_DATA <= k {
          assert k <= b - run < k + n;
        }
      }
    }

    // ---- reading (`v` is what the device returns for reads) ----

    /** Collects the contents of `o` piece by piece; ok exactly if every piece is data and the checksum
        agrees. */
    method VerifyExtent(v: seq<Block>, o: Obj) returns (ok: bool, bytes: Bytes)
      requires o.blk + o.nblk <= |v| && o.nblk == NblkFor(o.len)
      ensures ok <==> ExtentOk(v, o, sum)
      ensures ok ==> bytes == ObjBytes(v, o)
    {
      bytes := [];
      var i, left := 0, o.len;
      while i < o.nblk
        invariant 0 <= i <= o.nblk && 0 <= left == o.len - |bytes| && ReadSoFar(v, o, i, left, bytes)
        invariant forall b | o.blk <= b < o.blk + i :: v[b].DataBlock?
      {
        var x := v[o.blk + i];
        if !x.DataBlock? {
          return false, [];
        }
        ReadPiece(v, o, i, left, bytes);
        var n := Min(left, BLOCK);
        bytes := bytes + x.bytes[..n];
        left := left - n;
        i := i + 1;
      }
      assert bytes == ObjBytes(v, o);
      ok := sum.data(bytes) == o.crc;
    }

    /** Marks the blocks of the current generation, its history and its pins, and counts those that cannot be
        read. */
    method RecomputeUsed(v: seq<Block>) returns (damaged: nat)
      modifies this`used
      ensures used == UsedBlocks(v, blocks, cur, curBlk, sum) && damaged == Damaged(v, blocks, Refs(cur), sum)
    {
      used, damaged := {0, 1} + Marked(cur, curBlk, blocks), 0;
      var fs := Refs(cur);
      var i := 0;
      while i < |fs|
        invariant 0 <= i <= |fs| && damaged == Damaged(v, blocks, fs[..i], sum)
        invariant used == {0, 1} + Marked(cur, curBlk, blocks) + RefsUsed(v, blocks, fs[..i], sum)
      {
        assert fs[..i + 1][..i] == fs[..i];
        used := used + RefUsed(v, blocks, fs[i], sum);
        damaged := damaged + if LoadRoot(v, blocks, fs[i], sum).None? then 1 else 0;
        i := i + 1;
      }
      assert fs[..i] == fs;
    }

    /** Root and extents of a candidate slot; `r` is its root if it verifies. */
    method Try(v: seq<Block>, si: SlotInfo) returns (state: SlotState, r: Root)
      requires si.blocks <= |v|
      ensures state == TrySlot(v, si, sum)
      ensures state == Current ==> SlotRoot(v, si, sum) == Some(r)
    {
      match SlotRoot(v, si, sum) {
        case None =>
          return BadRoot, cur;
        case Some(root) =>
          r := root;
          if root.storeId != si.storeId {
            return BadRoot, r;
          }
          var i := 0;
          while i < |root.objs|
            invariant 0 <= i <= |root.objs|
            invariant forall o <- root.objs[..i] :: ExtentOk(v, o, sum)
          {
            assert ObjShaped(root.objs[i], root.gen, root.nextOid, si.blocks);
            var ok, _ := VerifyExtent(v, root.objs[i]);
            if !ok {
              return BadData, r;
            }
            assert root.objs[..i + 1] == root.objs[..i] + [root.objs[i]];
            i := i + 1;
          }
          assert root.objs[..i] == root.objs;
          state := Current;
      }
    }

    /** Tries the slots, newest candidate first, and takes the first that verifies. */
    method SelectSlot(v: seq<Block>)
      returns (slot: Option<nat>, r: Root, states: seq<SlotState>, rejected: Option<Reject>)
      requires |v| >= MIN_BLOCKS
      ensures slot == MountSlot(v, sum) && states == [FinalState(v, 0, sum), FinalState(v, 1, sum)]
      ensures rejected == Rejection(v, sum)
      ensures slot.Some? ==> SlotRoot(v, ReadSlot(v, slot.value), sum) == Some(r)
    {
      var a, b := ReadSlot(v, 0), ReadSlot(v, 1);
      var first := FirstChoice(a, b);
      slot, r, states, rejected := None, cur, [a.state, b.state], None;
      var k := 0;
      while k < 2
        invariant 0 <= k <= 2 && |states| == 2 && first == FirstChoice(a, b) && first < 2
        invariant k == 0 ==> slot == None && states == [a.state, b.state] && rejected == None
        invariant k >= 1 ==> rejected == Rejection(v, sum) && states[first] == FinalState(v, first, sum)
        invariant k == 1 ==> slot == (if Mountable(v, first, sum) then Some(first) else None)
        invariant k == 1 ==> states[1 - first] == ReadSlot(v, 1 - first).state
        invariant k == 2 ==> slot == MountSlot(v, sum) && states[1 - first] == FinalState(v, 1 - first, sum)
        invariant slot.Some? ==> slot.value < 2 && SlotRoot(v, ReadSlot(v, slot.value), sum) == Some(r)
      {
        var i := if k == 0 then first else 1 - first;
        var si := if i == 0 then a else b;
        if si.state == Older && slot.None? {
          var state, root := Try(v, si);
          states := states[i := state];
          if state == Current {
            slot, r := Some(i), root;
          } else if rejected.None? {
            rejected := Some(Reject(si.gen, state));
          }
        }
        k := k + 1;
      }
    }

    /** What a mount leaves in memory: the accepted slot, its root, and the blocks in use. */
    ghost predicate Loaded(v: seq<Block>)
      reads this
      requires |v| >= MIN_BLOCKS
    {
      && MountSlot(v, sum) == Some(curSlot) && maxGen == MaxGen(v)
      && used == UsedBlocks(v, blocks, cur, curBlk, sum)
      && var si := ReadSlot(v, curSlot);
         blocks == si.blocks && curBlk == si.rootBlk && SlotRoot(v, si, sum) == Some(cur)
    }

    /** Recovery: mounts the newest generation that verifies.  Only reads the device. */
    method Mount(boot: nat) returns (st: Status, report: Report)
      requires dev.Valid()
      modifies this`mounted, this`inTx, this`txPrune, this`txReserve, this`used, this`txused, this`maxGen, this`bootId,
               this`curSlot, this`curBlk, this`blocks, this`cur
      ensures |dev.V()| < MIN_BLOCKS ==> st == BadFormat
      ensures |dev.V()| >= MIN_BLOCKS ==> st == if MountSlot(dev.V(), sum).Some? then Ok else NoRoot
      ensures (mounted <==> st == Ok) && !inTx
      ensures st == Ok ==> |dev.V()| >= MIN_BLOCKS && Loaded(dev.V())
      ensures |dev.V()| >= MIN_BLOCKS ==> report == MountReport(dev.V(), sum)
    {
      Reset(boot);
      var v := dev.V();
      report := Report([Empty, Empty], [0, 0], None, 0, 0, false, None, 0);
      if |v| < MIN_BLOCKS {
        return BadFormat, report;
      }
      var slot, root, states, rejected := SelectSlot(v);
      var gens := [SlotGen(ReadSlot(v, 0)), SlotGen(ReadSlot(v, 1))];
      if slot.None? {
        return NoRoot, Report(states, gens, None, 0, MaxGen(v), rejected.Some?, rejected, 0);
      }
      var damaged := Adopt(v, slot.value, root);
      st := Ok;
      report := Report(states, gens, slot, root.gen, maxGen, rejected.Some? && rejected.value.gen >= root.gen, rejected,
                       damaged);
    }

    method Reset(boot: nat)
      modifies this`mounted, this`inTx, this`txPrune, this`txReserve, this`used, this`txused, this`maxGen, this`bootId
      ensures !mounted && !inTx && !txPrune && !txReserve && used == {} && txused == {} && maxGen == 0 && bootId == boot
    {
      mounted, inTx, txPrune, txReserve, used, txused, maxGen := false, false, false, false, {}, {}, 0;
      bootId := boot;
    }

    method Adopt(v: seq<Block>, slot: nat, root: Root) returns (damaged: nat)
      requires |v| >= MIN_BLOCKS && MountSlot(v, sum) == Some(slot) && SlotRoot(v, ReadSlot(v, slot), sum) == Some(root)
      modifies this`mounted, this`maxGen, this`curSlot, this`curBlk, this`blocks, this`cur, this`used
      ensures mounted && Loaded(v) && cur == root && damaged == Damaged(v, ReadSlot(v, slot).blocks, Refs(root), sum)
    {
      var si := ReadSlot(v, slot);
      mounted, maxGen, curSlot, curBlk, blocks, cur := true, MaxGen(v), slot, si.rootBlk, si.blocks, root;
      damaged := RecomputeUsed(v);
    }

    /** On a disk that satisfies the invariant a mount succeeds, and with the newest generation. */
    lemma MountSucceeds()
      requires DiskOk()
      ensures |dev.V()| >= MIN_BLOCKS && MountSlot(dev.V(), sum) == Some(Top(led).slot)
      ensures Loaded(dev.V()) ==> MountOk() && Top(led) == Gen(curSlot, curBlk, cur)
    {
      SafeMount(dev.V(), dev.M(), cfg, led);
    }

    /** Mounting such a disk. */
    method MountAgain(boot: nat) returns (st: Status)
      requires DiskOk()
      modifies this`mounted, this`inTx, this`txPrune, this`txReserve, this`used, this`txused, this`maxGen, this`bootId,
               this`curSlot, this`curBlk, this`blocks, this`cur
      ensures st == Ok && Valid() && mounted && !inTx && cur == Top(led).root
    {
      var report;
      MountSucceeds();
      st, report := Mount(boot);
      MountSucceeds();
    }

    // ---- transactions ----

    method Begin() returns (st: Status)
      requires Valid()
      modifies this`work, this`txused, this`txPrune, this`txReserve, this`inTx, this`tx
      ensures Valid() && st == if old(mounted && !inTx) then Ok else BadState
      ensures st == Ok ==>
                inTx && cur.gen in led.truth && tx == led.truth[cur.gen] && work == cur && !txPrune && !txReserve
                && txused == {}
      ensures st == Ok ==> VersionsOk(work.objs)
      ensures st != Ok ==> unchanged(this)
    {
      assert StoreKey(0, this);
      if !mounted || inTx {
        return BadState;
      }
      Open();
      st := Ok;
    }

    /** The transaction starts as a copy of the current generation. */
    method Open()
      requires DiskOk() && MountOk() && mounted
      modifies this`work, this`txused, this`txPrune, this`txReserve, this`inTx, this`tx
      ensures TxState() && inTx && cur.gen in led.truth && tx == led.truth[cur.gen] && work == cur && !txPrune
      ensures !txReserve && txused == {}
      ensures VersionsOk(work.objs)
    {
      TxSafeBegin(dev.V(), dev.M(), cfg, led, used);
      TxVersions(dev.V(), cfg, cur, curBlk, cur, used, {}, led.truth[cur.gen]);
      work, txused, txPrune, txReserve, inTx := cur, {}, false, false, true;
      tx := led.truth[cur.gen];
    }

    method Abort()
      modifies this`inTx, this`txPrune, this`txReserve, this`txused
      ensures !inTx && !txPrune && !txReserve && txused == {}
    {
      inTx, txPrune, txReserve, txused := false, false, false, {};
    }

    /** Writes the blocks of an extent: the `full` first ones, then the padded tail. */
    method WriteExtent(blk: nat, pieces: seq<Block>, full: nat) returns (ok: bool)
      requires dev.Valid() && full <= |pieces| && blk + |pieces| <= |dev.V()|
      modifies dev
      ensures dev.Valid() && Wrote(old(dev.V()), old(dev.M()), dev.V(), dev.M(), blk, pieces, dev.torn, ok)
      ensures SameOutside(old(dev.V()), dev.V(), blk, |pieces|) && (ok ==> Stored(dev.V(), blk, pieces))
      ensures dev.faults == old(dev.faults) + (if ok then 0 else 1)
    {
      ghost var v, m := dev.V(), dev.M();
      ok := true;
      if full > 0 {
        ok := dev.Write(blk, pieces[..full]);
      }
      ghost var v1, m1 := dev.V(), dev.M();
      if !ok {
        WrotePrefix(v, m, v1, m1, blk, pieces, full, dev.torn);
      } else if full < |pieces| {
        ok := dev.Write(blk + full, pieces[full..]);
        WroteParts(v, m, v1, m1, dev.V(), dev.M(), blk, pieces, full, dev.torn, ok);
      }
      WroteView(v, m, dev.V(), dev.M(), blk, pieces, dev.torn, ok);
    }

    /** The same, to blocks that are not in use. */
    method WriteFree(blk: nat, pieces: seq<Block>, full: nat) returns (ok: bool)
      requires DiskOk() && MountOk() && mounted
      requires full <= |pieces| && blk + |pieces| <= cfg.n && forall b | blk <= b < blk + |pieces| :: b !in used
      modifies this`led, dev
      ensures DiskOk() && MountOk() && led == Spent(old(led))
      ensures SameOutside(old(dev.V()), dev.V(), blk, |pieces|) && (ok ==> Stored(dev.V(), blk, pieces))
      ensures dev.faults == old(dev.faults) + (if ok then 0 else 1)
    {
      ghost var v, m, l := dev.V(), dev.M(), led;
      SafeSize(v, m, cfg, l);
      led := Spent(led);
      ok := WriteExtent(blk, pieces, full);
      SafeWriteFree(v, m, dev.V(), dev.M(), cfg, l, used, blk, pieces, ok);
    }

    /** What a put reports: whether it reached the device at all is decided by the transaction; the
        rest is up to the device. */
    ghost function PutRefusal(name: string, data: Bytes): Status
      reads this`mounted, this`inTx, this`work, this`blocks, this`used, this`txused, this`txReserve
    {
      if !mounted || !inTx then BadState
      else if !NameOk(name) then BadName
      else if |data| > OBJ_MAX_BYTES then TooBig
      else if |work.objs| >= OBJ_MAX && forall o <- work.objs :: o.name != name then ObjFull
      else if data != [] && NoRoom(NblkFor(|data|), txReserve, blocks, used + txused) then NoSpace
      else Ok
    }

    /** Allocates and writes the extent for `data`; blk is 0 for no data. */
    method PutExtent(data: Bytes, ghost keep: set<nat>) returns (st: Status, blk: nat)
      requires DiskOk() && MountOk() && TxState() && mounted && keep == used + txused
      modifies this`txused, this`led, dev
      ensures DiskOk() && MountOk() && TxState()
      ensures led == if st == NoSpace || data == [] then old(led) else Spent(old(led))
      ensures TxSafe(dev.V(), cfg, cur, curBlk, work, used, old(txused), tx)
      ensures st == NoSpace <==> data != [] && NoRoom(NblkFor(|data|), txReserve, blocks, keep)
      ensures (st == Ok || st == NoSpace || st == IoError)
      ensures dev.faults == old(dev.faults) + (if st == IoError then 1 else 0)
      ensures st == Ok ==> txused == old(txused) + Span(blk, NblkFor(|data|)) && Stored(dev.V(), blk, Pieces(data))
      ensures st == Ok ==> Span(blk, NblkFor(|data|)) !! keep
      ensures |txused| <= |old(txused)| + (if st == NoSpace then 0 else NblkFor(|data|))
      ensures (st == IoError ==> data != [])
      ensures st == Ok ==> if data == [] then blk == 0 else FIRST_DATA <= blk && blk + NblkFor(|data|) <= cfg.n
      ensures Untouched(old(dev.V()), dev.V(), keep)
    {
      SafeSize(dev.V(), dev.M(), cfg, led);
      var nblk := NblkFor(|data|);
      if nblk == 0 {
        return Ok, 0;
      }
      blk := Alloc(nblk, txReserve);
      if blk == 0 {
        return NoSpace, 0;
      }
      var ok := FillExtent(blk, data, old(txused), keep);
      st := if ok then Ok else IoError;
    }

    /** Writes `data` to an extent that has been allocated for it. */
    method FillExtent(blk: nat, data: Bytes, ghost before: set<nat>, ghost keep: set<nat>) returns (ok: bool)
      requires DiskOk() && MountOk() && mounted && TxSafe(dev.V(), cfg, cur, curBlk, work, used, before, tx)
      requires keep == used + before && FreeRun(blk, NblkFor(|data|), cfg.n, keep)
      requires txused == before + Span(blk, NblkFor(|data|))
      modifies this`led, dev
      ensures DiskOk() && MountOk() && TxState() && TxSafe(dev.V(), cfg, cur, curBlk, work, used, before, tx)
      ensures led == Spent(old(led)) && dev.faults == old(dev.faults) + (if ok then 0 else 1)
      ensures (ok ==> Stored(dev.V(), blk, Pieces(data))) && Untouched(old(dev.V()), dev.V(), keep)
    {
      ghost var v, nblk := dev.V(), NblkFor(|data|);
      ok := WriteFree(blk, Pieces(data), |data| / BLOCK);
      TxSafeWrite(v, dev.V(), cfg, cur, curBlk, work, used, before, tx, blk, nblk);
      assert Span(blk, nblk) !! keep;
      UntouchedOne(v, dev.V(), keep, blk, nblk);
    }

    /** On success the open transaction holds `data` under `name`; every refusal leaves it as it was. */
    method Put(name: string, kind: nat, data: Bytes) returns (st: Status)
      requires Valid()
      modifies this`txused, this`work, this`tx, this`led, dev
      ensures Valid()
      ensures led == if (st == Ok || st == IoError) && data != [] then Spent(old(led)) else old(led)
      ensures dev.faults == old(dev.faults) + (if st == IoError then 1 else 0)
      ensures st == if old(PutRefusal(name, data)) == Ok && dev.faults > old(dev.faults) then IoError
                    else old(PutRefusal(name, data))
      ensures st == Ok ==> tx == old(tx)[name := data]
      ensures st == Ok ==> PutVersions(old(work.objs), work.objs, name) && PutObjs(old(work.objs), work.objs, name)
      ensures st != Ok ==> tx == old(tx) && work == old(work)
      ensures work.pins == old(work.pins) && (st == IoError ==> data != [])
      ensures |txused| <= |old(txused)| + if st == Ok || st == IoError then NblkFor(|data|) else 0
      ensures mounted && inTx ==> Untouched(old(dev.V()), dev.V(), used + old(txused))
    {
      if !mounted || !inTx {
        return BadState;
      }
      if !NameOk(name) {
        return BadName;
      }
      if |data| > OBJ_MAX_BYTES {
        return TooBig;
      }
      var idx := FindIndex(work.objs, name);
      if idx < 0 && |work.objs| >= OBJ_MAX {
        return ObjFull;
      }
      assert idx >= 0 ==> work.objs[idx] in work.objs;
      st := PutNew(idx, name, kind, data, used + txused);
    }

    method PutNew(idx: int, name: string, kind: nat, data: Bytes, ghost keep: set<nat>) returns (st: Status)
      requires Valid() && mounted && inTx && keep == used + txused
      requires -1 <= idx < |work.objs| && NameOk(name) && |data| <= OBJ_MAX_BYTES && (idx < 0 ==> |work.objs| < OBJ_MAX)
      requires if idx < 0 then forall o <- work.objs :: o.name != name else work.objs[idx].name == name
      modifies this`txused, this`work, this`tx, this`led, dev
      ensures Valid()
      ensures led == if (st == Ok || st == IoError) && data != [] then Spent(old(led)) else old(led)
      ensures st == NoSpace <==> data != [] && NoRoom(NblkFor(|data|), txReserve, blocks, keep)
      ensures (st == Ok || st == NoSpace || st == IoError)
      ensures dev.faults == old(dev.faults) + (if st == IoError then 1 else 0)
      ensures st == Ok ==> tx == old(tx)[name := data]
      ensures st == Ok ==> PutVersions(old(work.objs), work.objs, name) && PutObjs(old(work.objs), work.objs, name)
      ensures st != Ok ==> tx == old(tx) && work == old(work)
      ensures |txused| <= |old(txused)| + (if st == NoSpace then 0 else NblkFor(|data|))
      ensures (st == IoError ==> data != [])
      ensures work.pins == old(work.pins)
      ensures Untouched(old(dev.V()), dev.V(), keep)
    {
      assert StoreKey(0, this);
      ghost var before := txused;
      var blk;
      st, blk := PutExtent(data, keep);
      if st == Ok {
        Record(idx, name, kind, blk, data, before);
      }
    }

    /** Enters the extent that holds `data` into the transaction, one version on. */
    method Record(idx: int, name: string, kind: nat, blk: nat, data: Bytes, ghost before: set<nat>)
      requires dev.Valid() && cfg.sum == sum && maxGen == cur.gen
      requires TxSafe(dev.V(), cfg, cur, curBlk, work, used, before, tx)
      requires -1 <= idx < |work.objs| && NameOk(name) && |data| <= OBJ_MAX_BYTES && (idx < 0 ==> |work.objs| < OBJ_MAX)
      requires if idx < 0 then forall o <- work.objs :: o.name != name else work.objs[idx].name == name
      requires if data == [] then blk == 0 else FIRST_DATA <= blk && blk + NblkFor(|data|) <= cfg.n
      requires txused == before + Span(blk, NblkFor(|data|)) && Span(blk, NblkFor(|data|)) !! used + before
      requires Stored(dev.V(), blk, Pieces(data))
      modifies this`work, this`tx
      ensures TxState() && tx == old(tx)[name := data] && work.pins == old(work.pins)
      ensures PutVersions(old(work.objs), work.objs, name) && PutObjs(old(work.objs), work.objs, name)
    {
      TxSafePutNew(dev.V(), cfg, cur, curBlk, work, used, before, tx, idx, name, kind, blk, data);
      PutObjsOk(work, idx, name, kind, blk, data, maxGen + 1, sum);
      work := PutRoot(work, idx, PutObj(work, idx, name, kind, blk, data, maxGen + 1, sum));
      tx := tx[name := data];
    }

    static lemma PutObjsOk(work: Root, idx: int, name: string, kind: nat, blk: nat, data: Bytes, gen: nat,
                           sum: Checksums)
      requires -1 <= idx < |work.objs| && (idx >= 0 ==> work.objs[idx].name == name)
      ensures PutObjs(work.objs, PutRoot(work, idx, PutObj(work, idx, name, kind, blk, data, gen, sum)).objs, name)
    {
      if idx >= 0 {
        assert work.objs[idx] in work.objs;
      }
    }

    method Del(name: string) returns (st: Status)
      requires Valid()
      modifies this`work, this`tx
      ensures Valid()
      ensures st == if !(mounted && inTx) then BadState
                    else if exists o <- old(work.objs) :: o.name == name then Ok else NotFound
      ensures st == Ok ==> tx == old(tx) - {name} && (old(VersionsOk(work.objs)) ==> VersionsOk(work.objs))
      ensures work.pins == old(work.pins) && forall o <- work.objs :: o in old(work.objs)
      ensures st != Ok ==> unchanged(this)
    {
      assert StoreKey(0, this);
      if !mounted || !inTx {
        return BadState;
      }
      var idx := FindIndex(work.objs, name);
      if idx < 0 {
        return NotFound;
      }
      TxSafeDel(dev.V(), cfg, cur, curBlk, work, used, txused, tx, idx);
      work := work.(objs := WithoutObj(work.objs, idx));
      tx := tx - {name};
      st := Ok;
    }

    /** The reference to a generation that the current one retains. */
    method FindRef(gen: nat) returns (f: Option<Ref>)
      requires cfg.sum == sum
      ensures f.Some? ==> f.value.gen == gen && f.value in Retained(cfg, cur, curBlk)
      ensures f.None? ==> forall g <- Retained(cfg, cur, curBlk) :: g.gen != gen
    {
      var fs := [Ref(cur.gen, curBlk, sum.root(cur))] + Refs(cur);
      var i := 0;
      while i < |fs|
        invariant 0 <= i <= |fs| && forall j | 0 <= j < i :: fs[j].gen != gen
      {
        if fs[i].gen == gen {
          return Some(fs[i]);
        }
        i := i + 1;
      }
      f := None;
    }

    /** Pins a retained generation under a new name. */
    method AddPin(name: string, gen: nat) returns (st: Status)
      requires Valid()
      modifies this`work
      ensures Valid() && work.objs == old(work.objs)
      ensures st == if !(mounted && inTx) then BadState
                    else if !PinNameOk(name) then BadName
                    else if exists p <- old(work.pins) :: p.name == name then Exists
                    else if |old(work.pins)| >= PIN_MAX then PinFull
                    else if exists f <- Retained(cfg, cur, curBlk) :: f.gen == gen then Ok else Pruned
      ensures st == Ok ==>
                exists f <- Retained(cfg, cur, curBlk) :: f.gen == gen && work.pins == old(work.pins) + [Pin(name, f)]
      ensures st != Ok ==> work == old(work)
    {
      assert StoreKey(0, this);
      if !mounted || !inTx {
        return BadState;
      }
      if !PinNameOk(name) {
        return BadName;
      }
      var idx := FindPin(work.pins, name);
      if idx >= 0 {
        return Exists;
      }
      if |work.pins| >= PIN_MAX {
        return PinFull;
      }
      var f := FindRef(gen);
      if f.None? {
        return Pruned;
      }
      EnterPin(name, f.value);
      st := Ok;
    }

    method EnterPin(name: string, f: Ref)
      requires DiskOk() && MountOk() && mounted && TxState() && PinNameOk(name) && f in Retained(cfg, cur, curBlk)
      requires |work.pins| < PIN_MAX && forall p <- work.pins :: p.name != name
      modifies this`work
      ensures DiskOk() && MountOk() && TxState() && work == old(work).(pins := old(work.pins) + [Pin(name, f)])
    {
      TxSafePin(dev.V(), cfg, cur, curBlk, work, used, txused, tx, Pin(name, f));
      work := work.(pins := work.pins + [Pin(name, f)]);
    }

    method Unpin(name: string) returns (st: Status)
      requires Valid()
      modifies this`work
      ensures Valid() && work.objs == old(work.objs)
      ensures st == if !(mounted && inTx) then BadState
                    else if exists p <- old(work.pins) :: p.name == name then Ok else NotFound
      ensures st == Ok ==> work.pins == WithoutPin(old(work.pins), name)
      ensures st != Ok ==> work == old(work)
    {
      assert StoreKey(0, this);
      if !mounted || !inTx {
        return BadState;
      }
      var i := FindPin(work.pins, name);
      if i < 0 {
        return NotFound;
      }
      TxSafeUnpin(dev.V(), cfg, cur, curBlk, work, used, txused, tx, i);
      work := work.(pins := work.pins[..i] + work.pins[i + 1..]);
      st := Ok;
    }

    method Prune()
      modifies this`txPrune
      ensures txPrune == old(inTx || txPrune)
    {
      if inTx {
        txPrune := true;
      }
    }

    method AllowReserve()
      modifies this`txReserve
      ensures txReserve == old(inTx || txReserve)
    {
      if inTx {
        txReserve := true;
      }
    }

    // ---- commit ----

    method BuildHist(keep: nat) returns (hist: seq<Ref>)
      requires keep >= 1 && cfg.sum == sum
      ensures hist == NewHist(cfg, cur, curBlk, keep)
    {
      hist := [Ref(cur.gen, curBlk, sum.root(cur))];
      var i := 0;
      while i < |cur.hist| && |hist| < keep
        invariant 0 <= i <= |cur.hist| && i <= keep - 1 && hist == [RefOf(cfg, cur, curBlk)] + cur.hist[..i]
      {
        hist := hist + [cur.hist[i]];
        i := i + 1;
      }
    }

    method BuildLog(gen: nat, text: string) returns (log: seq<LogEntry>)
      ensures log == NewLog(cur, gen, bootId, text)
    {
      log := [LogEntry(gen, bootId, text)];
      var i := 0;
      while i < |cur.log| && |log| < LOG_MAX
        invariant 0 <= i <= |cur.log| && i <= LOG_MAX - 1 && log == [LogEntry(gen, bootId, text)] + cur.log[..i]
      {
        log := log + [cur.log[i]];
        i := i + 1;
      }
    }

    /** Every block has one survivor: nothing is only in the cache. */
    ghost predicate Clean()
      reads dev
      requires dev.Valid()
    {
      forall b | 0 <= b < |dev.V()| :: dev.M()[b] == {dev.V()[b]}
    }

    /** Steps 1 and 2: the root, then the barrier. */
    method WriteRoot(blk: nat, w: Root) returns (ok: bool)
      requires DiskOk() && MountOk() && mounted && blk < cfg.n && blk !in used
      modifies this`led, dev
      ensures DiskOk() && MountOk() && SameOutside(old(dev.V()), dev.V(), blk, 1)
      ensures ok ==> led == Promoted(Spent(old(led))) && Clean() && Stored(dev.V(), blk, [RootBlock(w)])
      ensures !ok ==> led == Spent(old(led))
      ensures dev.faults == old(dev.faults) + (if ok then 0 else 1)
    {
      ok := WriteFree(blk, [RootBlock(w)], 1);
      if ok {
        ghost var v, m, l := dev.V(), dev.M(), led;
        ok := dev.Flush();
        if ok {
          SafeFlushed(v, m, dev.V(), dev.M(), cfg, l);
          led := Promoted(l);
          SafeGens(v, m, cfg, l);
        } else {
          SafeShrunk(v, m, dev.V(), dev.M(), cfg, l);
        }
      }
    }

    /** The disk is ready for the superblock of the generation (slot, blk, w) with objects c. */
    ghost predicate CanPublish(slot: nat, blk: nat, w: Root, c: Contents)
      reads this`cfg, this`led, dev
    {
      && dev.Valid() && Clean() && led.next.None?
      && Safe(dev.V(), dev.M(), cfg, led) && Ready(dev.V(), dev.M(), cfg, led, Gen(slot, blk, w), c)
    }

    /** Steps 3 and 4: the superblock into the free slot, then the flush. */
    method Publish(slot: nat, blk: nat, w: Root, ghost c: Contents) returns (done: bool)
      requires dev.Valid() && dev.torn == Junk && slot < |dev.V()| && cfg.sum == sum && blocks == cfg.n
      modifies this`led, dev
      ensures dev.Valid() && SameOutside(old(dev.V()), dev.V(), slot, 1)
      ensures done ==> dev.V()[slot] == SuperOf(cfg, Gen(slot, blk, w))
      ensures !old(CanPublish(slot, blk, w, c)) ==> led == old(led)
      ensures old(CanPublish(slot, blk, w, c)) ==>
                && Safe(dev.V(), dev.M(), cfg, led)
                && led.truth == old(led.truth)[w.gen := c] && led.baseLost == old(led.baseLost)
                && (led.next == None || (led.next == Some(Gen(slot, blk, w)) && led.nextLost == led.baseLost))
                && (led.base == if done then Gen(slot, blk, w) else old(led.base)) && (done ==> led.next.None?)
      ensures dev.faults == old(dev.faults) + (if done then 0 else 1)
    {
      ghost var v, m, l := dev.V(), dev.M(), led;
      ghost var ready := CanPublish(slot, blk, w, c);
      ghost var g := Gen(slot, blk, w);
      var sb := SuperBlock(MakeSuper(w, blk, blocks, sum));
      done := dev.Write(slot, [sb]);
      ghost var v', m' := dev.V(), dev.M();
      WroteView(v, m, v', m', slot, [sb], Junk, done);
      if ready {
        SafePublished(v, m, v', m', cfg, l, g, c, done);
        led := Published(l, cfg, g, c, v'[slot]);
      }
      if done {
        assert v'[slot] == [sb][0] by { assert v'[slot..slot + 1][0] == v'[slot]; }
        done := dev.Flush();
        if ready && done {
          SafeFlushed(v', m', dev.V(), dev.M(), cfg, led);
          led := Promoted(led);
        } else if ready {
          SafeShrunk(v', m', dev.V(), dev.M(), cfg, led);
        }
      }
    }

    /** The root of the new generation. */
    method BuildRoot(text: string) returns (w: Root)
      requires cfg.sum == sum && maxGen == cur.gen
      ensures w == NewRoot(cfg, cur, curBlk, work, bootId, text, KeepCount(txPrune, cur.retain))
    {
      var hist := BuildHist(KeepCount(txPrune, cur.retain));
      var log := BuildLog(maxGen + 1, text);
      w := work.(gen := maxGen + 1, parentGen := cur.gen, bootId := bootId, flags := 0, text := text,
                 hist := hist, log := log);
    }

    /** The device shows the superblock and the root of the generation. */
    ghost predicate Shown(g: Gen)
      reads this`cfg, dev
    {
      dev.Valid() && g.slot < 2 <= |dev.V()| && g.blk < |dev.V()| && dev.V()[g.blk] == RootBlock(g.root)
      && dev.V()[g.slot] == SuperOf(cfg, g)
    }

    /** Steps 1 and 2 for the root w built from the open transaction: afterwards its superblock may be
        written. */
    method PersistRoot(blk: nat, w: Root, text: string, ghost before: set<nat>) returns (ok: bool)
      requires DiskOk() && MountOk() && mounted && TxSafe(dev.V(), cfg, cur, curBlk, work, used, before, tx)
      requires LabelOk(text) && RETAIN_MIN <= cur.retain <= RETAIN_MAX && curSlot < 2
      requires w == NewRoot(cfg, cur, curBlk, work, bootId, text, KeepCount(txPrune, cur.retain))
      requires FIRST_DATA <= blk < cfg.n && blk !in used + before
      modifies this`led, dev
      ensures DiskOk() && MountOk() && dev.faults == old(dev.faults) + (if ok then 0 else 1)
      ensures led == if ok then Promoted(Spent(old(led))) else Spent(old(led))
      ensures ok ==>
                2 <= |dev.V()| && blk < |dev.V()| && dev.V()[blk] == RootBlock(w)
                && led.base == Gen(curSlot, curBlk, cur)
      ensures ok && VersionsOk(work.objs) ==> CanPublish(1 - curSlot, blk, w, tx)
      ensures SameOutside(old(dev.V()), dev.V(), blk, 1)
    {
      ghost var v := dev.V();
      SafeSize(dev.V(), dev.M(), cfg, led);
      ok := WriteRoot(blk, w);
      if ok {
        assert dev.V()[blk] == RootBlock(w) by { assert dev.V()[blk..blk + 1][0] == dev.V()[blk]; }
        if VersionsOk(work.objs) {
          PersistReady(v, blk, w, text, before);
        }
      }
    }

    lemma PersistReady(v: seq<Block>, blk: nat, w: Root, text: string, before: set<nat>)
      requires DiskOk() && MountOk() && mounted && Clean() && VersionsOk(work.objs)
      requires TxSafe(v, cfg, cur, curBlk, work, used, before, tx) && led.base == Gen(curSlot, curBlk, cur)
      requires led.next.None?
      requires LabelOk(text) && RETAIN_MIN <= cur.retain <= RETAIN_MAX && curSlot < 2
      requires w == NewRoot(cfg, cur, curBlk, work, bootId, text, KeepCount(txPrune, cur.retain))
      requires FIRST_DATA <= blk < cfg.n && blk !in used + before && blk < |dev.V()|
      requires SameOutside(v, dev.V(), blk, 1) && dev.V()[blk] == RootBlock(w)
      ensures CanPublish(1 - curSlot, blk, w, tx)
    {
      var keep := KeepCount(txPrune, cur.retain);
      ReadyToPublish(v, dev.V(), dev.M(), cfg, led, work, used, before, tx, blk, bootId, text, keep);
    }

    /** Steps 1 to 4 for the root w built from the open transaction. */
    method Persist(blk: nat, w: Root, text: string, ghost before: set<nat>, ghost keep: set<nat>) returns (st: Status)
      requires DiskOk() && MountOk() && mounted && TxSafe(dev.V(), cfg, cur, curBlk, work, used, before, tx)
      requires LabelOk(text) && RETAIN_MIN <= cur.retain <= RETAIN_MAX && curSlot < 2
      requires w == NewRoot(cfg, cur, curBlk, work, bootId, text, KeepCount(txPrune, cur.retain))
      requires FIRST_DATA <= blk < cfg.n && blk !in used + before && keep == used + before - {1 - curSlot}
      modifies this`led, this`saved, dev
      ensures dev.Valid() && (st == Ok || st == IoError || st == OutcomeUnknown)
      ensures dev.faults == old(dev.faults) + (if st == Ok then 0 else 1)
      ensures saved == if st == Ok then w.gen else old(saved)
      ensures st == IoError ==> led == Spent(old(led)) && DiskOk() && MountOk()
      ensures st != IoError && VersionsOk(work.objs) ==>
                DiskOk() && Committed(old(led), led, w, tx, st == Ok)
                && (st == Ok ==> led.base == Gen(1 - curSlot, blk, w))
      ensures st == Ok ==> Shown(Gen(1 - curSlot, blk, w))
      ensures Untouched(old(dev.V()), dev.V(), keep)
    {
      ghost var v := dev.V();
      var ok := PersistRoot(blk, w, text, before);
      if !ok {
        UntouchedBoth(v, dev.V(), dev.V(), used + before, blk, 1 - curSlot);
        return IoError;
      }
      st := PersistRest(blk, w, v, old(led), used + before);
    }

    /** Steps 3 and 4, as seen from before step 1. */
    method PersistRest(blk: nat, w: Root, ghost v: seq<Block>, ghost l: Ledger, ghost inUse: set<nat>)
      returns (st: Status)
      requires dev.Valid() && dev.torn == Junk && curSlot < 2 <= |dev.V()| && cfg.sum == sum && blocks == cfg.n
      requires FIRST_DATA <= blk < |dev.V()| && dev.V()[blk] == RootBlock(w) && led == Promoted(Spent(l))
      requires led.base == Gen(curSlot, curBlk, cur)
      requires VersionsOk(work.objs) ==> CanPublish(1 - curSlot, blk, w, tx) && saved <= led.base.root.gen
      requires SameOutside(v, dev.V(), blk, 1) && blk !in inUse
      modifies this`led, this`saved, dev
      ensures dev.Valid() && (st == Ok || st == OutcomeUnknown)
      ensures dev.faults == old(dev.faults) + (if st == Ok then 0 else 1)
      ensures saved == if st == Ok then w.gen else old(saved)
      ensures VersionsOk(work.objs) ==>
                DiskOk() && Committed(l, led, w, tx, st == Ok) && (st == Ok ==> led.base == Gen(1 - curSlot, blk, w))
      ensures st == Ok ==> Shown(Gen(1 - curSlot, blk, w))
      ensures Untouched(v, dev.V(), inUse - {1 - curSlot})
    {
      ghost var v1, l1 := dev.V(), led;
      st := PersistSuper(blk, w);
      UntouchedBoth(v, v1, dev.V(), inUse, blk, 1 - curSlot);
      if VersionsOk(work.objs) {
        CommittedFrom(l, l1, led, w, tx, st == Ok);
      }
    }

    /** Steps 3 and 4. */
    method PersistSuper(blk: nat, w: Root) returns (st: Status)
      requires dev.Valid() && dev.torn == Junk && curSlot < 2 <= |dev.V()| && cfg.sum == sum && blocks == cfg.n
      requires FIRST_DATA <= blk < |dev.V()| && dev.V()[blk] == RootBlock(w)
      requires VersionsOk(work.objs) ==> CanPublish(1 - curSlot, blk, w, tx) && saved <= led.base.root.gen
      modifies this`led, this`saved, dev
      ensures dev.Valid() && (st == Ok || st == OutcomeUnknown)
      ensures dev.faults == old(dev.faults) + (if st == Ok then 0 else 1)
      ensures saved == if st == Ok then w.gen else old(saved)
      ensures VersionsOk(work.objs) ==>
                && DiskOk() && led.truth == old(led.truth)[w.gen := tx] && led.baseLost == old(led.baseLost)
                && (led.next.Some? ==> led.next.value.root == w && led.nextLost == led.baseLost)
                && (led.base == if st == Ok then Gen(1 - curSlot, blk, w) else old(led.base))
                && (st == Ok ==> led.next.None?)
      ensures st == Ok ==> Shown(Gen(1 - curSlot, blk, w))
      ensures SameOutside(old(dev.V()), dev.V(), 1 - curSlot, 1)
    {
      ghost var ready := CanPublish(1 - curSlot, blk, w, tx);
      if ready {
        ReadyGen(dev.V(), dev.M(), cfg, led, Gen(1 - curSlot, blk, w), tx);
      }
      var done := Publish(1 - curSlot, blk, w, tx);
      st := if done then Ok else OutcomeUnknown;
      saved := if done then w.gen else saved;
    }

    /** Makes the open transaction the next generation: Ok means that no crash can undo it,
        OutcomeUnknown that a mount has to tell. */
    method Commit(text: string) returns (st: Status, gen: nat)
      requires Valid()
      modifies this`led, this`saved, this`inTx, this`txPrune, this`txReserve, this`txused, this`mounted,
               this`cur, this`curBlk, this`curSlot, this`maxGen, this`used, dev
      ensures cfg == old(cfg) && dev.Valid()
      ensures st == BadState <==> !old(mounted && inTx)
      ensures st == BadState ==> unchanged(this) && unchanged(dev)
      ensures old(mounted && inTx) ==> (st == BadName <==> !LabelOk(text))
      ensures old(mounted && inTx) && LabelOk(text) ==> (st == NoSpace <==> old(NoRoom(1, true, blocks, used + txused)))
      ensures (st == Ok || st == BadState || st == BadName || st == NoSpace || st == IoError || st == OutcomeUnknown)
      ensures dev.faults == old(dev.faults) + (if (st == IoError || st == OutcomeUnknown) then 1 else 0)
      ensures st != BadState ==> !inTx && (mounted <==> st != OutcomeUnknown)
      ensures (st == Ok || st == OutcomeUnknown) ==> gen == old(cur.gen) + 1
      ensures (st != Ok && st != OutcomeUnknown) ==>
                led == (if st == IoError then Spent(old(led)) else old(led)) && cur == old(cur) && Valid()
      ensures saved == if st == Ok then gen else old(saved)
      ensures (st == Ok || st == OutcomeUnknown) && old(VersionsOk(work.objs)) ==>
                Valid() && Committed(old(led), led, old(NextRoot(text)), old(tx), st == Ok)
      ensures st == Ok ==> curSlot == 1 - old(curSlot) && Shown(Gen(curSlot, curBlk, cur)) && cur == old(NextRoot(text))
      ensures old(mounted && inTx) ==> Untouched(old(dev.V()), dev.V(), old(used) + old(txused) - {1 - old(curSlot)})
    {
      assert StoreKey(0, this);
      gen := 0;
      if !mounted || !inTx {
        return BadState, gen;
      }
      if !LabelOk(text) {
        Abort();
        return BadName, gen;
      }
      gen := maxGen + 1;
      st := CommitTx(text, used + txused - {1 - curSlot});
    }

    /** The root that a commit of the open transaction writes. */
    ghost function NextRoot(text: string): (w: Root)
      reads this`cfg, this`cur, this`curBlk, this`work, this`bootId, this`txPrune
      ensures w.gen == cur.gen + 1 && w.objs == work.objs
    {
      NewRoot(cfg, cur, curBlk, work, bootId, text, KeepCount(txPrune, cur.retain))
    }

    method CommitTx(text: string, ghost keep: set<nat>) returns (st: Status)
      requires DiskOk() && MountOk() && mounted && TxState() && LabelOk(text) && keep == used + txused - {1 - curSlot}
      modifies this`led, this`saved, this`inTx, this`txPrune, this`txReserve, this`txused, this`mounted,
               this`cur, this`curBlk, this`curSlot, this`maxGen, this`used, dev
      ensures dev.Valid() && (st == Ok || st == NoSpace || st == IoError || st == OutcomeUnknown)
      ensures st == NoSpace <==> old(NoRoom(1, true, blocks, used + txused))
      ensures dev.faults == old(dev.faults) + (if (st == IoError || st == OutcomeUnknown) then 1 else 0)
      ensures !inTx && (mounted <==> st != OutcomeUnknown)
      ensures (st != Ok && st != OutcomeUnknown) ==>
                led == (if st == IoError then Spent(old(led)) else old(led)) && cur == old(cur) && DiskOk() && MountOk()
      ensures saved == if st == Ok then old(cur.gen) + 1 else old(saved)
      ensures (st == Ok || st == OutcomeUnknown) && old(VersionsOk(work.objs)) ==>
                DiskOk() && MountOk() && Committed(old(led), led, old(NextRoot(text)), old(tx), st == Ok)
      ensures st == Ok ==> curSlot == 1 - old(curSlot) && Shown(Gen(curSlot, curBlk, cur)) && cur == old(NextRoot(text))
      ensures Untouched(old(dev.V()), dev.V(), keep)
    {
      ghost var before := txused;
      var w, blk := Prepare(text);
      if blk == 0 {
        Abort();
        return NoSpace;
      }
      st := CommitAt(blk, w, text, before, keep);
    }

    /** The new root and a block for it, 0 if there is none. */
    method Prepare(text: string) returns (w: Root, blk: nat)
      requires DiskOk() && MountOk() && mounted && TxState()
      modifies this`txused
      ensures w == NextRoot(text) && (blk == 0 <==> NoRoom(1, true, blocks, used + old(txused)))
      ensures TxSafe(dev.V(), cfg, cur, curBlk, work, used, old(txused), tx)
      ensures RETAIN_MIN <= cur.retain <= RETAIN_MAX && curSlot < 2 && maxGen == cur.gen
      ensures blk != 0 ==> FIRST_DATA <= blk < cfg.n && blk !in used + old(txused)
    {
      SafeSize(dev.V(), dev.M(), cfg, led);
      SafeGens(dev.V(), dev.M(), cfg, led);
      TxRetain(dev.V(), cfg, cur, curBlk, work, used, txused, tx);
      w := BuildRoot(text);
      blk := Alloc(1, true);
    }

    method CommitAt(blk: nat, w: Root, text: string, ghost before: set<nat>, ghost keep: set<nat>) returns (st: Status)
      requires DiskOk() && MountOk() && mounted && TxSafe(dev.V(), cfg, cur, curBlk, work, used, before, tx)
      requires LabelOk(text) && RETAIN_MIN <= cur.retain <= RETAIN_MAX && curSlot < 2
      requires w == NewRoot(cfg, cur, curBlk, work, bootId, text, KeepCount(txPrune, cur.retain))
      requires FIRST_DATA <= blk < cfg.n && blk !in used + before && keep == used + before - {1 - curSlot}
      modifies this`led, this`saved, this`inTx, this`txPrune, this`txReserve, this`txused, this`mounted,
               this`cur, this`curBlk, this`curSlot, this`maxGen, this`used, dev
      ensures dev.Valid() && (st == Ok || st == IoError || st == OutcomeUnknown)
      ensures dev.faults == old(dev.faults) + (if st == Ok then 0 else 1)
      ensures !inTx && (mounted <==> st != OutcomeUnknown)
      ensures st == IoError ==> led == Spent(old(led)) && cur == old(cur) && DiskOk() && MountOk()
      ensures saved == if st == Ok then w.gen else old(saved)
      ensures st != IoError && old(VersionsOk(work.objs)) ==>
                DiskOk() && MountOk() && Committed(old(led), led, w, old(tx), st == Ok)
      ensures st == Ok ==> curSlot == 1 - old(curSlot) && cur == w && Shown(Gen(curSlot, curBlk, cur))
      ensures Untouched(old(dev.V()), dev.V(), keep)
    {
      st := Persist(blk, w, text, before, keep);
      Conclude(st, w, blk);
    }

    /** The transaction is over: the new generation is current, or the old one still is, or only a
        mount can tell. */
    method Conclude(st: Status, w: Root, blk: nat)
      requires dev.Valid() && curSlot < 2 && blocks == cfg.n && cfg.sum == sum && w.gen == maxGen + 1 && mounted
      modifies this`inTx, this`txPrune, this`txReserve, this`txused, this`mounted,
               this`cur, this`curBlk, this`curSlot, this`maxGen, this`used
      ensures !inTx && (mounted <==> st != OutcomeUnknown)
      ensures st == Ok ==> cur == w && curBlk == blk && curSlot == 1 - old(curSlot)
      ensures st == Ok && Top(led) == Gen(curSlot, blk, w) ==> MountOk()
      ensures st != Ok ==> cur == old(cur) && (old(MountOk()) ==> MountOk())
    {
      Abort();
      if st == OutcomeUnknown {
        mounted := false;
      } else if st == Ok {
        Install(w, blk);
      }
    }

    /** The new generation becomes the current one. */
    method Install(w: Root, blk: nat)
      requires dev.Valid() && curSlot < 2 && blocks == cfg.n && cfg.sum == sum && w.gen == maxGen + 1
      modifies this`cur, this`curBlk, this`curSlot, this`maxGen, this`used
      ensures cur == w && curBlk == blk && curSlot == 1 - old(curSlot)
      ensures Top(led) == Gen(curSlot, blk, w) ==> MountOk()
    {
      cur, curBlk, curSlot, maxGen := w, blk, 1 - curSlot, maxGen + 1;
      var _ := RecomputeUsed(dev.V());
    }

    /** A generation reported saved is accepted by every later mount exactly if no version
        counter in it has wrapped around. */
    lemma SavedIsMountable()
      requires mounted && Shown(Gen(curSlot, curBlk, cur)) && cfg.sum == sum
      requires VersionsOk(cur.objs) ==> DiskOk() && MountOk()
      ensures Mountable(dev.V(), curSlot, sum) <==> VersionsOk(cur.objs)
    {
      if VersionsOk(cur.objs) {
        SafeMount(dev.V(), dev.M(), cfg, led);
      } else {
        WrappedRootRejected(dev.V(), cfg, Gen(curSlot, curBlk, cur));
      }
    }

    // ---- power failure, format, reading ----

    /** Power fails and returns: memory is lost, the device keeps what its cache let through. */
    method PowerFail()
      requires DiskOk()
      modifies this, dev
      ensures DiskOk() && !mounted && !inTx && cfg == old(cfg) && saved == old(saved) && dev.faults == old(dev.faults)
      ensures led == old(led).(next := None) || led == Promoted(old(led))
    {
      ghost var v, m, l := dev.V(), dev.M(), led;
      dev.PowerCycle();
      mounted, inTx := false, false;
      SafeGens(v, m, cfg, l);
      SafeCrashed(v, m, dev.V(), dev.M(), cfg, l);
      led := Recovered(l, cfg, dev.V());
    }

    /** Afterwards slot 0 holds a root without objects as generation 1, and slot 1 nothing a mount would
        take. */
    method Format(storeId: nat, retain: nat, boot: nat) returns (st: Status)
      requires dev.Valid() && dev.torn == Junk
      modifies this, dev
      ensures !mounted && !inTx && dev.Valid()
      ensures st == BadFormat <==> !(MIN_BLOCKS <= old(|dev.V()|) <= MAX_BLOCKS && RETAIN_MIN <= retain <= RETAIN_MAX)
      ensures st == BadFormat ==> unchanged(dev)
      ensures (st == Ok || st == BadFormat || st == IoError)
      ensures dev.faults == old(dev.faults) + (if st == IoError then 1 else 0)
      ensures st == Ok ==>
                DiskOk() && cfg == Config(old(|dev.V()|), storeId, sum) && saved == 1
                && led == FormatLedger(cfg, retain, boot)
    {
      Reset(boot);
      var n := |dev.V()|;
      if n < MIN_BLOCKS || n > MAX_BLOCKS || retain < RETAIN_MIN || retain > RETAIN_MAX {
        return BadFormat;
      }
      st := WriteEmpty(storeId, retain, boot, n);
      cfg, saved := Config(n, storeId, sum), 1;
      led := FormatLedger(cfg, retain, boot);
      if st == Ok {
        SafeFormat(dev.V(), dev.M(), cfg, retain, boot);
      }
    }

    method WriteEmpty(storeId: nat, retain: nat, boot: nat, n: nat) returns (st: Status)
      requires dev.Valid() && dev.torn == Junk && n == |dev.V()| && n >= MIN_BLOCKS
      modifies dev
      ensures dev.Valid() && |dev.V()| == n && (st == Ok || st == IoError)
      ensures dev.faults == old(dev.faults) + (if st == IoError then 1 else 0)
      ensures st == Ok ==>
                && Clean() && dev.V()[1] == DataBlock(seq(BLOCK, _ => 0))
                && dev.V()[0] == SuperBlock(MakeSuper(FormatRoot(storeId, retain, boot), FIRST_DATA, n, sum))
                && dev.V()[FIRST_DATA] == RootBlock(FormatRoot(storeId, retain, boot))
    {
      var r := FormatRoot(storeId, retain, boot);
      var ok := dev.Write(FIRST_DATA, [RootBlock(r)]);
      if ok {
        ok := dev.Write(1, [DataBlock(seq(BLOCK, _ => 0))]);
      }
      if ok {
        ok := dev.Flush();
      }
      if ok {
        ok := dev.Write(0, [SuperBlock(MakeSuper(r, FIRST_DATA, n, sum))]);
      }
      if ok {
        ok := dev.Flush();
      }
      st := if ok then Ok else IoError;
    }

    method ReadFrom(v: seq<Block>, r: Root, name: string, cap: nat, ghost c: Contents)
      returns (st: Status, bytes: Bytes)
      requires blocks <= |v| && RootSane(r, blocks)
      ensures Holds(v, r.objs, c, sum) ==> ReadsAs(c, name, cap, st, bytes)
      ensures st == Ok || st == NotFound || st == TooBig || st == Corrupt
    {
      var idx := FindIndex(r.objs, name);
      if idx < 0 {
        return NotFound, [];
      }
      var o := r.objs[idx];
      if o.len > cap {
        return TooBig, [];
      }
      assert ObjShaped(o, r.gen, r.nextOid, blocks);
      var ok;
      ok, bytes := VerifyExtent(v, o);
      st := if ok then Ok else Corrupt;
    }

    /** A retained generation reads back exactly as it was committed, unless it may be lost. */
    method Read(gen: nat, name: string, cap: nat) returns (st: Status, bytes: Bytes)
      requires Valid()
      ensures (st == BadState <==> !mounted) && st != IoError && st != OutcomeUnknown
      ensures mounted && (gen == 0 || gen == cur.gen) ==>
                cur.gen in led.truth && ReadsAs(led.truth[cur.gen], name, cap, st, bytes)
      ensures mounted && (gen != 0 && gen != cur.gen) && (forall f <- Refs(cur) :: f.gen != gen) ==> st == Pruned
      ensures mounted && (gen == 0 || gen == cur.gen || exists f <- Refs(cur) :: f.gen == gen) ==>
                st == Ok || st == NotFound || st == TooBig || st == Corrupt
      ensures mounted && (gen != 0 && gen != cur.gen) && gen !in TopLost(led) &&
              (exists f <- Refs(cur) :: f.gen == gen) ==>
                gen in led.truth && ReadsAs(led.truth[gen], name, cap, st, bytes)
    {
      assert StoreKey(0, this);
      bytes := [];
      if !mounted {
        return BadState, bytes;
      }
      SafeTop(dev.V(), dev.M(), cfg, led);
      if gen == 0 || gen == cur.gen {
        st, bytes := ReadFrom(dev.V(), cur, name, cap, led.truth[cur.gen]);
        return;
      }
      st, bytes := ReadOld(gen, name, cap);
    }

    method ReadOld(gen: nat, name: string, cap: nat) returns (st: Status, bytes: Bytes)
      requires DiskOk() && MountOk() && mounted && (gen != 0 && gen != cur.gen)
      ensures st != BadState && st != IoError && st != OutcomeUnknown
      ensures (forall f <- Refs(cur) :: f.gen != gen) ==> st == Pruned
      ensures (exists f <- Refs(cur) :: f.gen == gen) ==> st == Ok || st == NotFound || st == TooBig || st == Corrupt
      ensures gen !in TopLost(led) && (exists f <- Refs(cur) :: f.gen == gen) ==>
                gen in led.truth && ReadsAs(led.truth[gen], name, cap, st, bytes)
    {
      var f := FindRef(gen);
      if f.None? {
        assert forall g <- Refs(cur) :: g in Retained(cfg, cur, curBlk);
        assert !exists g <- Refs(cur) :: g.gen == gen;
        return Pruned, [];
      }
      SafeSize(dev.V(), dev.M(), cfg, led);
      if gen !in TopLost(led) {
        SafeRetained(dev.V(), dev.M(), cfg, led, f.value);
      }
      match LoadRoot(dev.V(), blocks, f.value, sum) {
        case None =>
          return Corrupt, [];
        case Some(r) =>
          st, bytes := ReadFrom(dev.V(), r, name, cap, if gen in led.truth then led.truth[gen] else map[]);
      }
    }
  }
}
