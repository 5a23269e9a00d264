/** Whole runs of a store: any script of operations, remounts and power failures on any device. */
module StoreRuns {
  import opened Common
  import opened StoreFormat
  import opened StoreRecovery
  import opened StoreInvariant
  import opened StoreTransaction
  import opened VolatileDisk
  import opened NxStore
  import opened StoreLog
  import opened StoreClient
  import opened StoreAgreement

  lemma RetainedGens(cfg: Config, cur: Root, curBlk: nat, gen: nat)
    ensures gen == cur.gen || gen in GenSet(cur) <==> exists f <- Retained(cfg, cur, curBlk) :: f.gen == gen
  {
    var all := Retained(cfg, cur, curBlk);
    assert all[0] in all && all[0].gen == cur.gen;
    if gen in GenSet(cur) {
      var f :| f in Refs(cur) && f.gen == gen;
      assert f in all;
    }
  }

  ghost predicate SuitKey(k: nat, c: Client, cmd: Command) {
    true
  }

  /** A store and its client. */
  class Session {
    const s: Store
    var c: Client
    ghost var script: seq<Command>

    ghost predicate TxOpen()
      reads this, s
    {
      TxAgreed(c, script, s.work, s.tx, s.txPrune, s.txReserve, s.txused)
    }

    ghost predicate Valid()
      reads this, s, s.dev
    {
      && s.Valid() && c.inTx == s.inTx && c.cur == (if s.mounted then Some(s.cur.gen) else None)
      && Agreed(c, script, s.led, s.saved, s.cfg.n) && (s.mounted && s.inTx ==> TxOpen())
    }

    constructor (s: Store, size: nat, retain: nat, ghost boot: nat)
      requires s.Valid() && !s.mounted && !s.inTx && s.saved == 1 && s.led == FormatLedger(s.cfg, retain, boot)
      requires size == s.cfg.n
      ensures Valid() && this.s == s && c == NewClient(size, retain) && script == []
    {
      AgreedNew(NewClient(size, retain), s.led, s.cfg, retain, boot);
      this.s, c, script := s, NewClient(size, retain), [];
    }

    /** What every command ensures beside keeping Valid. */
    twostate predicate Did(cmd: Command, r: Reply)
      reads this, s, s.dev
    {
      && Turn(old(c), cmd, r, old(s.used) + old(s.txused), c) && script == old(script) + [cmd]
      && s.dev.faults == old(s.dev.faults) + Failed(r)
    }

    /** The store agrees with what the client will know (behind a key). */
    ghost predicate Suits(c': Client, cmd: Command)
      reads this, s, s.dev
    {
      forall k {:trigger SuitKey(k, c', cmd)} :: SuitKey(k, c', cmd) ==> Suited(c', cmd)
    }

    ghost predicate Suited(c': Client, cmd: Command)
      reads this, s, s.dev
    {
      && s.Valid() && c'.inTx == s.inTx && c'.cur == (if s.mounted then Some(s.cur.gen) else None)
      && Agreed(c', script + [cmd], s.led, s.saved, s.cfg.n)
      && (s.mounted && s.inTx ==> TxAgreed(c', script + [cmd], s.work, s.tx, s.txPrune, s.txReserve, s.txused))
    }

    method Note(c': Client, cmd: Command)
      requires Suits(c', cmd)
      modifies this`c, this`script
      ensures Valid() && c == c' && script == old(script) + [cmd]
    {
      assert SuitKey(0, c', cmd);
      c, script := c', script + [cmd];
    }

    /** What the client knows of the generation it runs on. */
    lemma Facts()
      requires Valid()
      ensures InTx(c) == (s.mounted && s.inTx) && s.led.base.root.gen <= Top(s.led).root.gen
      ensures s.mounted ==>
                && c.size == s.blocks && c.cur == Some(s.cur.gen) && s.cur == Top(s.led).root
                && Told(c.gens, c.retain, s.cur)
                && Now(c) == KeptOf(s.cur) && GensOf(Now(c)) == GenSet(s.cur) && Versioned(s.cur.objs, script)
    {
      s.ValidFacts();
      AgreedTop(c, script, s.led, s.saved, s.cfg.n);
    }

    lemma Fits()
      requires Valid()
      ensures InTx(c) ==> Expected(c, s.used + s.txused)
    {
      Facts();
      if InTx(c) {
        TxAgreedFacts(c, script, s.work, s.tx, s.txPrune, s.txReserve, s.txused);
        s.ValidFacts();
        s.InUseNow();
        AgreedSpace(c, script, s.dev.V(), s.dev.M(), s.cfg, s.led, s.saved, s.used, s.txused);
      }
    }

    // ---- transactions ----

    /** What a new transaction starts from. */
    lemma BeginFacts()
      requires Valid()
      ensures forall g <- s.led.truth :: s.led.truth[g] == Latest(c.log, g)
      ensures s.mounted ==> PinsTold(s.cur.pins, Now(c).pins) && Versioned(s.cur.objs, script)
    {
      Facts();
      AgreedTop(c, script, s.led, s.saved, s.cfg.n);
      ExplainsFacts(c.log, s.led, s.saved, c.pending);
      if s.mounted {
        PinsToldRoot(c.gens, c.retain, s.cur);
      }
    }

    method TryBegin() returns (r: Reply)
      requires Valid()
      modifies s`work, s`txused, s`txPrune, s`txReserve, s`inTx, s`tx
      ensures Suits(HeardBegin(c, r), DoBegin) && r.st == if c.cur.Some? && !c.inTx then Ok else BadState
    {
      BeginFacts();
      var st := s.Begin();
      r := Plain(st);
      ghost var c' := HeardBegin(c, r);
      AgreedStill(c, c', script, DoBegin, s.led, s.saved, s.cfg.n);
      if st == Ok {
        TxAgreedNew(c', script, DoBegin, s.work, s.txPrune, s.txReserve, s.txused);
      } else if s.mounted {
        TxStill(c', DoBegin);
      }
    }

    method Begin() returns (r: Reply)
      requires Valid()
      modifies this`c, this`script, s`work, s`txused, s`txPrune, s`txReserve, s`inTx, s`tx
      ensures Valid() && Did(DoBegin, r)
    {
      Fits();
      r := TryBegin();
      TurnBegin(c, r, old(s.used) + old(s.txused));
      Note(HeardBegin(c, r), DoBegin);
    }

    /** The transaction is as it was. */
    lemma TxStill(c': Client, cmd: Command)
      requires s.inTx ==> TxOpen()
      requires s.inTx ==>
                 c'.model == c.model && c'.pins == c.pins && c'.prune == c.prune && c'.reserve == c.reserve
                 && c'.asked == c.asked
      ensures s.inTx ==> TxAgreed(c', script + [cmd], s.work, s.tx, s.txPrune, s.txReserve, s.txused)
    {
      if s.inTx {
        TxAgreedFacts(c, script, s.work, s.tx, s.txPrune, s.txReserve, s.txused);
        TxAgreedNew(c', script, cmd, s.work, s.txPrune, s.txReserve, s.txused);
      }
    }

    lemma TxNames()
      requires Valid() && InTx(c)
      ensures forall name :: name in c.model <==> exists o <- s.work.objs :: o.name == name
      ensures |s.work.objs| == |c.model| && s.tx == c.model && VersionsOk(s.work.objs)
      ensures s.txReserve == c.reserve && s.txPrune == c.prune && s.blocks == c.size
    {
      Facts();
      TxAgreedFacts(c, script, s.work, s.tx, s.txPrune, s.txReserve, s.txused);
      s.ValidFacts();
      s.NextRefs("");
    }

    /** A put, unless it would wrap a version counter: that takes 2^32 - 1 puts of the same name. */
    method Put(name: string, kind: nat, data: Bytes) returns (go: bool, r: Reply)
      requires Valid()
      modifies this`c, this`script, s`txused, s`work, s`tx, s`led, s.dev
      ensures Valid() && (go ==> Did(DoPut(name, kind, data), r))
      ensures !go ==> CountPuts(script, name) >= TWO32 - 1 && c == old(c) && script == old(script)
                      && s.dev.faults == old(s.dev.faults)
    {
      r := Plain(BadState);
      if s.mounted && s.inTx && Wraps(s.work.objs, name) {
        TxAgreedFacts(c, script, s.work, s.tx, s.txPrune, s.txReserve, s.txused);
        VersionedWraps(s.work.objs, script, name);
        return false, r;
      }
      go := true;
      r := PutNow(name, kind, data);
    }

    /** What the store makes of a put. */
    method TryPut(name: string, kind: nat, data: Bytes) returns (r: Reply)
      requires Valid() && !(s.mounted && s.inTx && Wraps(s.work.objs, name))
      modifies s`txused, s`work, s`tx, s`led, s.dev
      ensures s.Valid() && Turn(c, DoPut(name, kind, data), r, old(s.used) + old(s.txused), HeardPut(c, name, data, r))
      ensures s.led == if (r.st == Ok || r.st == IoError) && data != [] then Spent(old(s.led)) else old(s.led)
      ensures s.dev.faults == old(s.dev.faults) + Failed(r) && (r.st == Ok || r.st == IoError ==> s.mounted && s.inTx)
      ensures s.mounted && s.inTx ==> s.tx == HeardPut(c, name, data, r).model
      ensures if r.st == Ok then PutObjs(old(s.work.objs), s.work.objs, name) && VersionsOk(s.work.objs)
              else s.work == old(s.work)
      ensures s.work.pins == old(s.work.pins)
      ensures |s.txused| <= old(|s.txused|) + if r.st == Ok || r.st == IoError then NblkFor(|data|) else 0
    {
      Fits();
      PutFacts(name, data);
      var st := s.Put(name, kind, data);
      r := Plain(st);
      TurnPut(c, name, kind, data, r, old(s.used) + old(s.txused));
    }

    /** The client can tell when a put is refused. */
    lemma PutFacts(name: string, data: Bytes)
      requires Valid()
      ensures s.PutRefusal(name, data) == PutAnswer(c, name, data, s.used + s.txused)
      ensures s.mounted && s.inTx ==> s.tx == c.model && VersionsOk(s.work.objs)
    {
      Facts();
      if InTx(c) {
        TxNames();
      }
    }

    method PutNow(name: string, kind: nat, data: Bytes) returns (r: Reply)
      requires Valid() && !(s.mounted && s.inTx && Wraps(s.work.objs, name))
      modifies this`c, this`script, s`txused, s`work, s`tx, s`led, s.dev
      ensures Valid() && Did(DoPut(name, kind, data), r)
    {
      ghost var l, work, tx, txused := s.led, s.work, s.tx, s.txused;
      r := TryPut(name, kind, data);
      PutSuits(name, kind, data, r, l, work, tx, txused);
      Note(HeardPut(c, name, data, r), DoPut(name, kind, data));
    }

    lemma PutSuits(name: string, kind: nat, data: Bytes, r: Reply, l: Ledger, work: Root, tx: Contents,
                   txused: set<nat>)
      requires s.Valid() && c.inTx == s.inTx && c.cur == (if s.mounted then Some(s.cur.gen) else None)
      requires Agreed(c, script, l, s.saved, s.cfg.n)
      requires s.mounted && s.inTx ==> TxAgreed(c, script, work, tx, s.txPrune, s.txReserve, txused)
      requires s.led == if (r.st == Ok || r.st == IoError) && data != [] then Spent(l) else l
      requires r.st == Ok || r.st == IoError ==> s.mounted && s.inTx
      requires s.mounted && s.inTx ==> s.tx == HeardPut(c, name, data, r).model
      requires if r.st == Ok then PutObjs(work.objs, s.work.objs, name) && VersionsOk(s.work.objs) else s.work == work
      requires s.work.pins == work.pins
      requires |s.txused| <= |txused| + if r.st == Ok || r.st == IoError then NblkFor(|data|) else 0
      ensures Suits(HeardPut(c, name, data, r), DoPut(name, kind, data))
    {
      var cmd, c' := DoPut(name, kind, data), HeardPut(c, name, data, r);
      if (r.st == Ok || r.st == IoError) && data != [] {
        AgreedTouched(c, c', script, cmd, l, s.saved, s.cfg.n);
      } else {
        AgreedStill(c, c', script, cmd, l, s.saved, s.cfg.n);
      }
      if s.mounted && s.inTx {
        TxAgreedFacts(c, script, work, tx, s.txPrune, s.txReserve, txused);
        TxAgreedPut(c, script, cmd, work, s.work, s.txPrune, s.txReserve, txused, s.txused, r);
      }
    }

    function WithoutObject(name: string, r: Reply): Client
      reads this
    {
      if r.st == Ok then c.(model := c.model - {name}) else c
    }

    method TryDelete(name: string) returns (r: Reply)
      requires Valid()
      modifies s`work, s`tx
      ensures Suits(WithoutObject(name, r), DoDel(name))
      ensures r.st == if !InTx(c) then BadState else if name in c.model then Ok else NotFound
    {
      ghost var objs := s.work.objs;
      Facts();
      if InTx(c) {
        TxNames();
        TxAgreedFacts(c, script, s.work, s.tx, s.txPrune, s.txReserve, s.txused);
      }
      var st := s.Del(name);
      r := Plain(st);
      ghost var c' := WithoutObject(name, r);
      AgreedStill(c, c', script, DoDel(name), s.led, s.saved, s.cfg.n);
      if s.mounted && s.inTx {
        VersionedFewer(objs, s.work.objs, script);
        TxAgreedNew(c', script, DoDel(name), s.work, s.txPrune, s.txReserve, s.txused);
      }
    }

    method Delete(name: string) returns (r: Reply)
      requires Valid()
      modifies this`c, this`script, s`work, s`tx
      ensures Valid() && Did(DoDel(name), r)
    {
      Fits();
      r := TryDelete(name);
      TurnDel(c, name, r, old(s.used) + old(s.txused));
      Note(WithoutObject(name, r), DoDel(name));
    }

    /** A generation can be pinned if the client knows it to be there. */
    lemma PinFacts(name: string, gen: nat)
      requires Valid() && InTx(c)
      ensures |c.pins| == |s.work.pins| && (Pinned(c.pins, name) <==> exists p <- s.work.pins :: p.name == name)
      ensures PinsTold(WithoutPin(s.work.pins, name), WithoutHeld(c.pins, name)) && PinsTold(s.work.pins, c.pins)
      ensures gen == c.cur.value || gen in GensOf(Now(c)) <==> exists f <- Retained(s.cfg, s.cur, s.curBlk) ::
                f.gen == gen
    {
      Facts();
      TxAgreedFacts(c, script, s.work, s.tx, s.txPrune, s.txReserve, s.txused);
      PinsToldFacts(s.work.pins, c.pins, name);
      RetainedGens(s.cfg, s.cur, s.curBlk, gen);
    }

    method TryPin(name: string, gen: nat) returns (st: Status)
      requires Valid()
      modifies s`work
      ensures s.Valid() && st == PinAnswer(c, name, gen) && s.work.objs == old(s.work.objs)
      ensures InTx(c) ==> PinsTold(s.work.pins, if st == Ok then c.pins + [Held(name, gen)] else c.pins)
    {
      Facts();
      ghost var pins := s.work.pins;
      if InTx(c) {
        PinFacts(name, gen);
      }
      st := s.AddPin(name, gen);
      if st == Ok {
        PinsToldMore(pins, c.pins, s.work.pins[|pins|]);
      }
    }

    method Pin(name: string, gen: nat) returns (r: Reply)
      requires Valid()
      modifies this`c, this`script, s`work
      ensures Valid() && Did(DoPin(name, gen), r)
    {
      Fits();
      if s.mounted && s.inTx {
        TxAgreedFacts(c, script, s.work, s.tx, s.txPrune, s.txReserve, s.txused);
      }
      var st := TryPin(name, gen);
      r := Plain(st);
      TurnPin(c, name, gen, r, old(s.used) + old(s.txused));
      NotePins(DoPin(name, gen), if st == Ok then c.pins + [Held(name, gen)] else c.pins);
    }

    /** Takes note of other pins. */
    method NotePins(cmd: Command, pins: seq<Held>)
      requires s.Valid() && c.inTx == s.inTx && c.cur == (if s.mounted then Some(s.cur.gen) else None)
      requires Agreed(c, script, s.led, s.saved, s.cfg.n) && (c.pins != pins ==> s.mounted && s.inTx)
      requires s.mounted && s.inTx ==> s.tx == c.model && VersionsOk(s.work.objs) && Versioned(s.work.objs, script)
      requires s.mounted && s.inTx ==> PinsTold(s.work.pins, pins) && s.txPrune == c.prune && s.txReserve == c.reserve
      requires s.mounted && s.inTx ==> |s.txused| <= c.asked
      modifies this`c, this`script
      ensures Valid() && c == old(c).(pins := pins) && script == old(script) + [cmd]
    {
      AgreedStill(c, c.(pins := pins), script, cmd, s.led, s.saved, s.cfg.n);
      if s.mounted && s.inTx {
        TxAgreedNew(c.(pins := pins), script, cmd, s.work, s.txPrune, s.txReserve, s.txused);
      }
      c, script := c.(pins := pins), script + [cmd];
    }

    method TryUnpin(name: string) returns (st: Status)
      requires Valid()
      modifies s`work
      ensures s.Valid() && st == (if !InTx(c) then BadState else if Pinned(c.pins, name) then Ok else NotFound)
      ensures InTx(c) ==> PinsTold(s.work.pins, if st == Ok then WithoutHeld(c.pins, name) else c.pins)
      ensures s.work.objs == old(s.work.objs)
    {
      Facts();
      if InTx(c) {
        PinFacts(name, 0);
      }
      st := s.Unpin(name);
    }

    method Unpin(name: string) returns (r: Reply)
      requires Valid()
      modifies this`c, this`script, s`work
      ensures Valid() && Did(DoUnpin(name), r)
    {
      Fits();
      if s.mounted && s.inTx {
        TxAgreedFacts(c, script, s.work, s.tx, s.txPrune, s.txReserve, s.txused);
      }
      var st := TryUnpin(name);
      r := Plain(st);
      TurnUnpin(c, name, r, old(s.used) + old(s.txused));
      NotePins(DoUnpin(name), if st == Ok then WithoutHeld(c.pins, name) else c.pins);
    }

    method Prune() returns (r: Reply)
      requires Valid()
      modifies this`c, this`script, s`txPrune
      ensures Valid() && Did(DoPrune, r)
    {
      Fits();
      s.Prune();
      r := Plain(Ok);
      TurnFlag(c, r, old(s.used) + old(s.txused));
      NoteFlags(DoPrune, c.inTx || c.prune, c.reserve, old(s.txPrune), s.txReserve);
    }

    method Reserve() returns (r: Reply)
      requires Valid()
      modifies this`c, this`script, s`txReserve
      ensures Valid() && Did(DoReserve, r)
    {
      Fits();
      s.AllowReserve();
      r := Plain(Ok);
      TurnFlag(c, r, old(s.used) + old(s.txused));
      NoteFlags(DoReserve, c.prune, c.inTx || c.reserve, s.txPrune, old(s.txReserve));
    }

    method NoteFlags(cmd: Command, prune: bool, reserve: bool, ghost hadPrune: bool, ghost hadReserve: bool)
      requires s.Valid() && c.inTx == s.inTx && c.cur == (if s.mounted then Some(s.cur.gen) else None)
      requires Agreed(c, script, s.led, s.saved, s.cfg.n)
      requires s.mounted && s.inTx ==> TxAgreed(c, script, s.work, s.tx, hadPrune, hadReserve, s.txused)
      requires s.inTx ==> (if cmd.DoPrune? then s.txPrune && prune && s.txReserve == hadReserve && reserve == c.reserve
                           else s.txReserve && reserve && s.txPrune == hadPrune && prune == c.prune)
      modifies this`c, this`script
      ensures Valid() && c == old(c).(prune := prune, reserve := reserve) && script == old(script) + [cmd]
    {
      ghost var c' := c.(prune := prune, reserve := reserve);
      AgreedStill(c, c', script, cmd, s.led, s.saved, s.cfg.n);
      if s.mounted && s.inTx {
        TxAgreedFacts(c, script, s.work, s.tx, hadPrune, hadReserve, s.txused);
        TxAgreedNew(c', script, cmd, s.work, s.txPrune, s.txReserve, s.txused);
      }
      c, script := c.(prune := prune, reserve := reserve), script + [cmd];
    }

    method Abort() returns (r: Reply)
      requires Valid()
      modifies this`c, this`script, s`inTx, s`txPrune, s`txReserve, s`txused
      ensures Valid() && Did(DoAbort, r)
    {
      Fits();
      s.Abort();
      r := Plain(Ok);
      TurnFlag(c, r, old(s.used) + old(s.txused));
      AgreedStill(c, NoTx(c), script, DoAbort, s.led, s.saved, s.cfg.n);
      Note(NoTx(c), DoAbort);
    }

    // ---- commit ----

    /** What a commit is going to write. */
    lemma CommitFacts(text: string)
      requires Valid() && InTx(c)
      ensures var w := s.NextRoot(text);
        && Follows(Top(s.led).root, w, RefOf(s.cfg, s.cur, s.curBlk)) && w.gen == Top(s.led).root.gen + 1
        && Told(c.gens[w.gen := Next(c)], c.retain, w) && Versioned(w.objs, script)
      ensures s.tx == c.model && VersionsOk(s.work.objs)
    {
      Facts();
      TxAgreedFacts(c, script, s.work, s.tx, s.txPrune, s.txReserve, s.txused);
      s.NextRefs(text);
      NextSame(s.cfg, s.cur, s.curBlk, s.work, s.bootId, text, c);
    }

    /** What the store makes of a commit. */
    method TryCommit(text: string) returns (r: Reply)
      requires Valid()
      modifies s`led, s`saved, s`inTx, s`txPrune, s`txReserve, s`txused, s`mounted, s`cur, s`curBlk, s`curSlot,
               s`maxGen,
               s`used, s.dev
      ensures Turn(c, DoCommit(text), r, old(s.used) + old(s.txused), HeardCommit(c, r))
      ensures Suits(HeardCommit(c, r), DoCommit(text))
      ensures s.dev.faults == old(s.dev.faults) + Failed(r)
    {
      Fits();
      Facts();
      ghost var l, saved, w, own := s.led, s.saved, s.NextRoot(text), RefOf(s.cfg, s.cur, s.curBlk);
      if InTx(c) {
        CommitFacts(text);
      }
      var st, gen := s.Commit(text);
      r := Reply(st, gen, []);
      TurnCommit(c, text, r, old(s.used) + old(s.txused));
      if st == Ok || st == OutcomeUnknown {
        WrittenSuits(text, r, l, saved, w, own);
      } else {
        RefusedSuits(text, r, l);
      }
    }

    /** A commit that reached the superblock. */
    lemma WrittenSuits(text: string, r: Reply, l: Ledger, saved: nat, w: Root, own: Ref)
      requires s.Valid() && Agreed(c, script, l, saved, s.cfg.n) && c.cur.Some?
      requires (r.st == Ok || r.st == OutcomeUnknown)
      requires l.base.root.gen <= Top(l).root.gen && w.gen == Top(l).root.gen + 1 == r.gen
      requires Committed(l, s.led, w, c.model, r.st == Ok) && Follows(Top(l).root, w, own)
      requires Told(c.gens[w.gen := Next(c)], c.retain, w) && Versioned(w.objs, script)
      requires s.saved == (if r.st == Ok then r.gen else saved) && !s.inTx && (s.mounted <==> r.st == Ok)
      requires s.mounted ==> s.cur.gen == r.gen
      ensures Suits(HeardCommit(c, r), DoCommit(text))
    {
      AgreedCommit(c, script, text, l, s.led, saved, s.cfg.n, w, own, r);
    }

    /** A commit that did not reach the superblock. */
    lemma RefusedSuits(text: string, r: Reply, l: Ledger)
      requires s.Valid() && Agreed(c, script, l, s.saved, s.cfg.n)
      requires c.cur == (if s.mounted then Some(s.cur.gen) else None)
      requires r.st != Ok && r.st != OutcomeUnknown && (c.cur.None? ==> r.st == BadState)
      requires s.led == (if r.st == IoError then Spent(l) else l) && s.inTx == (c.inTx && r.st == BadState)
      requires s.mounted && s.inTx ==> TxOpen()
      ensures Suits(HeardCommit(c, r), DoCommit(text))
    {
      if r.st == IoError {
        AgreedTouched(c, HeardCommit(c, r), script, DoCommit(text), l, s.saved, s.cfg.n);
      } else {
        AgreedStill(c, HeardCommit(c, r), script, DoCommit(text), l, s.saved, s.cfg.n);
        if s.mounted {
          TxStill(HeardCommit(c, r), DoCommit(text));
        }
      }
    }

    method Commit(text: string) returns (r: Reply)
      requires Valid()
      modifies this`c, this`script, s`led, s`saved, s`inTx, s`txPrune, s`txReserve, s`txused, s`mounted, s`cur,
               s`curBlk, s`curSlot, s`maxGen, s`used, s.dev
      ensures Valid() && Did(DoCommit(text), r)
    {
      r := TryCommit(text);
      Note(HeardCommit(c, r), DoCommit(text));
    }

    // ---- reads and mounts ----

    /** What a read of the store gives. */
    method Fetch(gen: nat, name: string, cap: nat) returns (r: Reply)
      requires Valid()
      ensures ReadAnswer(c, gen, r.st) && Failed(r) == 0
      ensures Agreed(HeardRead(c, gen, name, cap, r), script + [DoRead(gen, name, cap)], s.led, s.saved, s.cfg.n)
    {
      Facts();
      var st, bytes := s.Read(gen, name, cap);
      r := Reply(st, 0, bytes);
      AgreedGot(c, script, s.led, s.saved, s.cfg.n, gen, name, cap, r);
    }

    method Read(gen: nat, name: string, cap: nat) returns (r: Reply)
      requires Valid()
      modifies this`c, this`script
      ensures Valid() && Did(DoRead(gen, name, cap), r)
    {
      Fits();
      r := Fetch(gen, name, cap);
      TurnRead(c, gen, name, cap, r, old(s.used) + old(s.txused));
      if s.mounted {
        TxStill(HeardRead(c, gen, name, cap, r), DoRead(gen, name, cap));
      }
      Note(HeardRead(c, gen, name, cap, r), DoRead(gen, name, cap));
    }

    method TryMount(boot: nat) returns (r: Reply)
      requires Valid()
      modifies s`mounted, s`inTx, s`txPrune, s`txReserve, s`used, s`txused, s`maxGen, s`bootId, s`curSlot, s`curBlk,
               s`blocks, s`cur
      ensures Suits(Remounted(c, r.gen, c.pending == Some(r.gen)), DoRemount(boot)) && r.st == Ok && r.gen in c.gens
    {
      s.ValidFacts();
      AgreedTop(c, script, s.led, s.saved, s.cfg.n);
      AgreedMount(c, script, boot, s.led, s.saved, s.cfg.n);
      var st := s.MountAgain(boot);
      r := Reply(st, s.cur.gen, []);
    }

    /** Mounting again without a power cycle, for example after OutcomeUnknown. */
    method Remount(boot: nat) returns (r: Reply)
      requires Valid()
      modifies this`c, this`script, s`mounted, s`inTx, s`txPrune, s`txReserve, s`used, s`txused, s`maxGen, s`bootId,
               s`curSlot, s`curBlk, s`blocks, s`cur
      ensures Valid() && Did(DoRemount(boot), r)
    {
      Fits();
      r := TryMount(boot);
      TurnMount(c, boot, r, old(s.used) + old(s.txused));
      Note(Remounted(c, r.gen, c.pending == Some(r.gen)), DoRemount(boot));
    }

    /** Power fails and comes back. */
    method CyclePower(boot: nat)
      requires Valid()
      modifies s, s.dev
      ensures s.DiskOk() && s.dev.faults == old(s.dev.faults) && s.led.next.None? && s.led.base.root.gen in c.gens
      ensures Agreed(Awakened(c, s.led.base.root.gen), script + [DoPowerFail(boot)], s.led, s.saved, s.cfg.n)
    {
      ghost var l := s.led;
      s.ValidFacts();
      s.PowerFail();
      AgreedRestart(c, script, boot, l, s.led, s.saved, s.cfg.n);
    }

    method Recover(boot: nat) returns (r: Reply)
      requires s.DiskOk() && s.led.next.None? && s.led.base.root.gen in c.gens
      requires Agreed(Awakened(c, s.led.base.root.gen), script + [DoPowerFail(boot)], s.led, s.saved, s.cfg.n)
      modifies s`mounted, s`inTx, s`txPrune, s`txReserve, s`used, s`txused, s`maxGen, s`bootId, s`curSlot, s`curBlk,
               s`blocks, s`cur
      ensures Suits(Awakened(c, r.gen), DoPowerFail(boot)) && r.st == Ok && r.gen in c.gens
    {
      var st := s.MountAgain(boot);
      r := Reply(st, s.cur.gen, []);
    }

    method TryRestart(boot: nat) returns (r: Reply)
      requires Valid()
      modifies s, s.dev
      ensures Suits(Awakened(c, r.gen), DoPowerFail(boot)) && r.st == Ok && r.gen in c.gens
      ensures s.dev.faults == old(s.dev.faults)
    {
      CyclePower(boot);
      r := Recover(boot);
    }

    /** Power fails, comes back, and the store is mounted. */
    method Restart(boot: nat) returns (r: Reply)
      requires Valid()
      modifies this`c, this`script, s, s.dev
      ensures Valid() && Did(DoPowerFail(boot), r)
    {
      Fits();
      r := TryRestart(boot);
      TurnRestart(c, boot, r, old(s.used) + old(s.txused));
      Note(Awakened(c, r.gen), DoPowerFail(boot));
    }
  }

  // ---- runs ----

  /** What the client knows after the commands of a script were answered. */
  function Replay(first: Client, script: seq<Command>, replies: seq<Reply>): Client
    requires |script| == |replies|
  {
    if script == [] then first
    else
      var k := |script| - 1;
      Heard(Replay(first, script[..k], replies[..k]), script[k], replies[k])
  }

  /** The i-th reply is one that its command can get there. */
  ghost predicate AnswerAt(first: Client, script: seq<Command>, replies: seq<Reply>, taken: seq<set<nat>>, i: nat)
    requires i < |script| == |replies| == |taken|
  {
    Answers(Replay(first, script[..i], replies[..i]), script[i], replies[i], taken[i])
  }

  /** Every reply is one that its command can get where it was given, with these blocks taken each time. */
  ghost predicate Answered(first: Client, script: seq<Command>, replies: seq<Reply>, taken: seq<set<nat>>)
    requires |script| == |replies| == |taken|
  {
    forall i | 0 <= i < |script| :: AnswerAt(first, script, replies, taken, i)
  }

  lemma AnswerEarlier(first: Client, script: seq<Command>, replies: seq<Reply>, taken: seq<set<nat>>, i: nat,
                      script': seq<Command>, replies': seq<Reply>, taken': seq<set<nat>>)
    requires i < |script| == |replies| == |taken| && AnswerAt(first, script, replies, taken, i)
    requires script <= script' && replies <= replies' && taken <= taken' && |script'| == |replies'| == |taken'|
    ensures AnswerAt(first, script', replies', taken', i)
  {
    assert script'[..i] == script[..i] && replies'[..i] == replies[..i];
    assert script'[i] == script[i] && replies'[i] == replies[i] && taken'[i] == taken[i];
  }

  function Failures(replies: seq<Reply>): nat {
    if replies == [] then 0 else Failures(replies[..|replies| - 1]) + Failed(replies[|replies| - 1])
  }

  ghost predicate ScriptKey(k: nat, script: seq<Command>, replies: seq<Reply>) { true }

  /** c is what the client knows after the script was answered, `failures` times with a device error. */
  ghost predicate Transcript(first: Client, script: seq<Command>, replies: seq<Reply>, taken: seq<set<nat>>, c: Client,
                             failures: nat) {
    forall k {:trigger ScriptKey(k, script, replies)} :: ScriptKey(k, script, replies) ==>
      && |script| == |replies| == |taken| && Answered(first, script, replies, taken)
      && c == Replay(first, script, replies)
      && failures == Failures(replies)
  }

  lemma TranscriptMore(first: Client, script: seq<Command>, replies: seq<Reply>, taken: seq<set<nat>>, c: Client,
                       failures: nat, cmd: Command, r: Reply, used: set<nat>, c': Client)
    requires Transcript(first, script, replies, taken, c, failures) && Turn(c, cmd, r, used, c')
    ensures Transcript(first, script + [cmd], replies + [r], taken + [used], c', failures + Failed(r))
  {
    assert ScriptKey(0, script, replies) && TurnKey(0, c, cmd, r);
    var script', replies', taken' := script + [cmd], replies + [r], taken + [used];
    assert script'[..|script|] == script && replies'[..|script|] == replies;
    forall i | 0 <= i < |script'| ensures AnswerAt(first, script', replies', taken', i) {
      if i < |script| {
        assert AnswerAt(first, script, replies, taken, i);
        AnswerEarlier(first, script, replies, taken, i, script', replies', taken');
      }
    }
  }

  /** Carries out one command; go is false only for a put that would wrap a version counter. */
  method Step(session: Session, cmd: Command) returns (go: bool, r: Reply)
    requires session.Valid()
    modifies session, session.s, session.s.dev
    ensures session.Valid()
    ensures go ==>
              && Turn(old(session.c), cmd, r, old(session.s.used) + old(session.s.txused), session.c)
              && session.script == old(session.script) + [cmd]
              && session.s.dev.faults == old(session.s.dev.faults) + Failed(r)
    ensures !go ==>
              && cmd.DoPut? && CountPuts(session.script, cmd.name) >= TWO32 - 1 && session.c == old(session.c)
              && session.script == old(session.script) && session.s.dev.faults == old(session.s.dev.faults)
  {
    go := true;
    match cmd {
      case DoBegin => r := session.Begin();
      case DoPut(name, kind, data) => go, r := session.Put(name, kind, data);
      case DoDel(name) => r := session.Delete(name);
      case DoPin(name, gen) => r := session.Pin(name, gen);
      case DoUnpin(name) => r := session.Unpin(name);
      case DoPrune => r := session.Prune();
      case DoReserve => r := session.Reserve();
      case DoAbort => r := session.Abort();
      case DoCommit(text) => r := session.Commit(text);
      case DoRead(gen, name, cap) => r := session.Read(gen, name, cap);
      case DoRemount(boot) => r := session.Remount(boot);
      case DoPowerFail(boot) => r := session.Restart(boot);
    }
  }

  /** Every run.  After a format that reported Ok the client gets an answer to every command of the
      script, up to the first put that would wrap a version counter; every answer is one that the commands
      and answers before it leave possible; every mount succeeds; and the log of what was said and heard is
      consistent, wherever writes and flushes failed, wherever power was lost, and whatever the medium then
      kept of the unflushed writes.  (Losing power in the middle of an operation is the device failing that
      request without effect, then a power failure.)  An error is reported exactly when the device reported
      one. */
  method Run(dev: Device<Block>, sum: Checksums, storeId: nat, retain: nat, boot: nat, script: seq<Command>)
    returns (st: Status, replies: seq<Reply>, ghost taken: seq<set<nat>>)
    requires dev.Valid() && dev.torn == Junk
    modifies dev
    ensures st == Ok || st == BadFormat || st == IoError
    ensures st == BadFormat <==> !(MIN_BLOCKS <= old(|dev.V()|) <= MAX_BLOCKS && RETAIN_MIN <= retain <= RETAIN_MAX)
    ensures dev.faults == old(dev.faults) + (if st == IoError then 1 else 0) + Failures(replies)
    ensures st != Ok ==> replies == []
    ensures st == Ok ==>
              && |replies| <= |script| && |taken| == |replies|
              && Answered(NewClient(old(|dev.V()|), retain), script[..|replies|], replies, taken)
              && Consistent(Replay(NewClient(old(|dev.V()|), retain), script[..|replies|], replies).log)
              && (|replies| < |script| ==>
                    var cmd := script[|replies|];
                    cmd.DoPut? && CountPuts(script[..|replies|], cmd.name) >= TWO32 - 1)
  {
    replies, taken := [], [];
    var size := |dev.V()|;
    var s := new Store(dev, sum);
    st := s.Format(storeId, retain, boot);
    if st != Ok {
      return;
    }
    var session := new Session(s, size, retain, boot);
    var c;
    ghost var failures;
    replies, c, taken, failures := Serve(session, script);
    assert ScriptKey(0, script[..|replies|], replies);
  }

  /** Answers the commands of a script until one has to be refused. */
  method Serve(session: Session, script: seq<Command>)
    returns (replies: seq<Reply>, c: Client, ghost taken: seq<set<nat>>, ghost failures: nat)
    requires session.Valid() && session.script == []
    modifies session, session.s, session.s.dev
    ensures |replies| <= |script| && Transcript(old(session.c), script[..|replies|], replies, taken, c, failures)
    ensures Consistent(c.log)
    ensures session.s.dev.faults == old(session.s.dev.faults) + failures
    ensures |replies| < |script| ==>
              var cmd := script[|replies|];
              cmd.DoPut? && CountPuts(script[..|replies|], cmd.name) >= TWO32 - 1
  {
    replies, taken, failures := [], [], 0;
    var go := true;
    ghost var first := session.c;
    while |replies| < |script| && go
      invariant |replies| <= |script| && session.Valid() && session.script == script[..|replies|]
      invariant Transcript(first, session.script, replies, taken, session.c, failures)
      invariant session.s.dev.faults == old(session.s.dev.faults) + failures
      invariant !go ==> |replies| < |script| && script[|replies|].DoPut?
                        && CountPuts(session.script, script[|replies|].name) >= TWO32 - 1
      decreases |script| - |replies|, go
    {
      ghost var c0, script0, used := session.c, session.script, session.s.used + session.s.txused;
      var cmd := script[|replies|];
      var r;
      go, r := Step(session, cmd);
      if go {
        TranscriptMore(first, script0, replies, taken, c0, failures, cmd, r, used, session.c);
        assert script[..|replies| + 1] == script[..|replies|] + [cmd];
        replies, taken, failures := replies + [r], taken + [used], failures + Failed(r);
      }
    }
    c := session.c;
    AgreedTop(c, session.script, session.s.led, session.s.saved, session.s.cfg.n);
    ExplainsFacts(c.log, session.s.led, session.s.saved, c.pending);
  }
}
