/** How the store and its client agree: on the generations, on the log, and on the open transaction. */
module StoreAgreement {
  import opened Common
  import opened StoreFormat
  import opened StoreRecovery
  import opened StoreInvariant
  import opened StoreTransaction
  import opened NxStore
  import opened StoreLog
  import opened StoreSpace
  import opened StoreClient

  function CountPuts(script: seq<Command>, name: string): nat {
    if script == [] then 0
    else
      var c := script[|script| - 1];
      CountPuts(script[..|script| - 1], name) + (if c.DoPut? && c.name == name then 1 else 0)
  }

  ghost predicate CountKey(k: nat, objs: seq<Obj>, script: seq<Command>) {
    true
  }

  /** No object has more versions than its name has been put (behind a key). */
  ghost predicate Versioned(objs: seq<Obj>, script: seq<Command>) {
    forall k {:trigger CountKey(k, objs, script)} :: CountKey(k, objs, script) ==>
      forall o <- objs :: o.version <= CountPuts(script, o.name)
  }

  lemma CountMore(script: seq<Command>, cmd: Command, name: string)
    ensures CountPuts(script + [cmd], name) ==
                CountPuts(script, name) + (if cmd.DoPut? && cmd.name == name then 1 else 0)
  {
    assert (script + [cmd])[..|script|] == script;
  }

  lemma VersionedMore(objs: seq<Obj>, script: seq<Command>, cmd: Command)
    requires Versioned(objs, script)
    ensures Versioned(objs, script + [cmd])
  {
    assert CountKey(0, objs, script);
    forall o <- objs ensures o.version <= CountPuts(script + [cmd], o.name) {
      CountMore(script, cmd, o.name);
    }
  }

  lemma VersionedPut(objs: seq<Obj>, objs': seq<Obj>, script: seq<Command>, cmd: Command)
    requires Versioned(objs, script) && cmd.DoPut? && PutObjs(objs, objs', cmd.name)
    ensures Versioned(objs', script + [cmd])
  {
    assert CountKey(0, objs, script);
    forall o <- objs' ensures o.version <= CountPuts(script + [cmd], o.name) {
      CountMore(script, cmd, o.name);
    }
  }

  lemma VersionedFewer(objs: seq<Obj>, objs': seq<Obj>, script: seq<Command>)
    requires Versioned(objs, script) && forall o <- objs' :: o in objs
    ensures Versioned(objs', script)
  {
    assert CountKey(0, objs, script);
  }

  /** A version counter about to wrap has been put that often. */
  lemma VersionedWraps(objs: seq<Obj>, script: seq<Command>, name: string)
    requires Versioned(objs, script) && Wraps(objs, name)
    ensures CountPuts(script, name) >= TWO32 - 1
  {
    assert CountKey(0, objs, script);
    var o :| o in objs && o.name == name && (o.version + 1) % TWO32 == 0;
  }

  // ---- the generations and the log ----

  ghost predicate AgreeKey(k: nat, c: Client, l: Ledger) {
    true
  }

  /** The client knows the generations that the store has, and its log explains them (behind a key). */
  ghost predicate Agreed(c: Client, script: seq<Command>, l: Ledger, saved: nat, n: nat) {
    forall k {:trigger AgreeKey(k, c, l)} :: AgreeKey(k, c, l) ==>
      && Explains(c.log, l, saved, c.pending) && c.size == n
      && Told(c.gens, c.retain, l.base.root) && Versioned(l.base.root.objs, script)
      && (l.next.Some? ==> Told(c.gens, c.retain, l.next.value.root) && Versioned(l.next.value.root.objs, script))
      && (c.cur.Some? && l.next.Some? ==> DoubtOf(c.log).hazard.Over?)
  }

  lemma AgreedNew(c: Client, l: Ledger, cfg: Config, retain: nat, boot: nat)
    requires c == NewClient(cfg.n, retain) && l == FormatLedger(cfg, retain, boot)
    ensures Agreed(c, [], l, 1, cfg.n)
  {
  }

  /** What follows for the newest generation. */
  lemma AgreedTop(c: Client, script: seq<Command>, l: Ledger, saved: nat, n: nat)
    requires Agreed(c, script, l, saved, n)
    ensures Explains(c.log, l, saved, c.pending) && c.size == n && Versioned(Top(l).root.objs, script)
    ensures Told(c.gens, c.retain, Top(l).root) && Top(l).root.gen in c.gens
    ensures c.gens[Top(l).root.gen] == KeptOf(Top(l).root)
    ensures c.retain == Top(l).root.retain && GensOf(KeptOf(Top(l).root)) == GenSet(Top(l).root)
  {
    assert AgreeKey(0, c, l);
    ToldFacts(c.gens, c.retain, Top(l).root);
  }

  /** A command that changes at most the transaction. */
  lemma AgreedStill(c: Client, c': Client, script: seq<Command>, cmd: Command, l: Ledger, saved: nat, n: nat)
    requires Agreed(c, script, l, saved, n) && c'.size == c.size && c'.gens == c.gens && c'.retain == c.retain
    requires c'.log == c.log && c'.pending == c.pending && c'.cur == c.cur
    ensures Agreed(c', script + [cmd], l, saved, n)
  {
    assert AgreeKey(0, c, l);
    VersionedMore(l.base.root.objs, script, cmd);
    if l.next.Some? {
      VersionedMore(l.next.value.root.objs, script, cmd);
    }
  }

  /** ... and has reached the device. */
  lemma AgreedTouched(c: Client, c': Client, script: seq<Command>, cmd: Command, l: Ledger, saved: nat, n: nat)
    requires Agreed(c, script, l, saved, n) && c'.size == c.size && c'.gens == c.gens && c'.retain == c.retain
    requires c'.log == c.log + [Touched] && c'.pending == c.pending && c'.cur == c.cur && c.cur.Some?
    ensures Agreed(c', script + [cmd], Spent(l), saved, n)
  {
    assert AgreeKey(0, c, l);
    ExplainsTouched(c.log, l, saved, c.pending);
    VersionedMore(l.base.root.objs, script, cmd);
    if l.next.Some? {
      VersionedMore(l.next.value.root.objs, script, cmd);
    }
  }

  /** A read. */
  lemma AgreedGot(c: Client, script: seq<Command>, l: Ledger, saved: nat, n: nat, gen: nat, name: string, cap: nat,
                  r: Reply)
    requires Agreed(c, script, l, saved, n) && (c.cur.Some? ==> c.cur.value == Top(l).root.gen)
    requires c.cur.Some? && r.st != Pruned && (gen == 0 || gen == c.cur.value) ==>
               c.cur.value in l.truth && ReadsAs(l.truth[c.cur.value], name, cap, r.st, r.bytes)
    requires c.cur.Some? && r.st != Pruned && gen != 0 && gen != c.cur.value && gen !in TopLost(l) ==>
               gen in l.truth && ReadsAs(l.truth[gen], name, cap, r.st, r.bytes)
    ensures Agreed(HeardRead(c, gen, name, cap, r), script + [DoRead(gen, name, cap)], l, saved, n)
  {
    assert AgreeKey(0, c, l);
    if c.cur.Some? && r.st != Pruned {
      var current := gen == 0 || gen == c.cur.value;
      ExplainsGot(c.log, l, saved, c.pending, if current then c.cur.value else gen, current, name, cap, r.st, r.bytes);
    }
    VersionedMore(l.base.root.objs, script, DoRead(gen, name, cap));
    if l.next.Some? {
      VersionedMore(l.next.value.root.objs, script, DoRead(gen, name, cap));
    }
  }

  /** A commit that reached the superblock. */
  lemma AgreedCommit(c: Client, script: seq<Command>, text: string, l: Ledger, l': Ledger, saved: nat, n: nat, w: Root,
                     own: Ref, r: Reply)
    requires Agreed(c, script, l, saved, n) && c.cur.Some? && (r.st == Ok || r.st == OutcomeUnknown)
    requires l.base.root.gen <= Top(l).root.gen && w.gen == Top(l).root.gen + 1 == r.gen
    requires Committed(l, l', w, c.model, r.st == Ok) && Follows(Top(l).root, w, own)
    requires Told(c.gens[w.gen := Next(c)], c.retain, w) && Versioned(w.objs, script)
    ensures Agreed(HeardCommit(c, r), script + [DoCommit(text)], l', if r.st == Ok then r.gen else saved, n)
  {
    assert AgreeKey(0, c, l);
    ExplainsCommit(c.log, l, l', saved, c.pending, w, own, c.model, r.st == Ok);
    ToldElse(c.gens, c.retain, Top(l).root, w.gen, Next(c));
    VersionedMore(Top(l).root.objs, script, DoCommit(text));
    VersionedMore(w.objs, script, DoCommit(text));
  }

  /** A mount without a power cycle. */
  lemma AgreedMount(c: Client, script: seq<Command>, boot: nat, l: Ledger, saved: nat, n: nat)
    requires Agreed(c, script, l, saved, n) && l.base.root.gen <= Top(l).root.gen
    ensures var g := Top(l).root.gen;
            Agreed(Remounted(c, g, c.pending == Some(g)), script + [DoRemount(boot)], l, saved, n)
  {
    assert AgreeKey(0, c, l);
    AgreedTop(c, script, l, saved, n);
    ExplainsFacts(c.log, l, saved, c.pending);
    ExplainsMount(c.log, l, saved, c.pending, c.pending == Some(Top(l).root.gen));
    VersionedMore(l.base.root.objs, script, DoRemount(boot));
    if l.next.Some? {
      VersionedMore(l.next.value.root.objs, script, DoRemount(boot));
    }
  }

  /** Power failed and came back. */
  lemma AgreedRestart(c: Client, script: seq<Command>, boot: nat, l: Ledger, l': Ledger, saved: nat, n: nat)
    requires Agreed(c, script, l, saved, n) && l.base.root.gen <= Top(l).root.gen
    requires l' == l.(next := None) || l' == Promoted(l)
    ensures var g := l'.base.root.gen;
      && l'.next.None? && g in c.gens
      && Agreed(Awakened(c, g), script + [DoPowerFail(boot)], l', saved, n)
  {
    assert AgreeKey(0, c, l);
    ExplainsRestart(c.log, l, l', saved, c.pending);
    ToldFacts(c.gens, c.retain, l'.base.root);
    VersionedMore(l'.base.root.objs, script, DoPowerFail(boot));
  }

  // ---- the open transaction ----

  ghost predicate TxKey(k: nat, c: Client, work: Root) {
    true
  }

  /** The client knows its transaction (behind a key). */
  ghost predicate TxAgreed(c: Client, script: seq<Command>, work: Root, tx: Contents, prune: bool, reserve: bool,
                           txused: set<nat>) {
    forall k {:trigger TxKey(k, c, work)} :: TxKey(k, c, work) ==>
      && tx == c.model && VersionsOk(work.objs) && PinsTold(work.pins, c.pins) && Versioned(work.objs, script)
      && prune == c.prune && reserve == c.reserve && |txused| <= c.asked
  }

  lemma TxAgreedFacts(c: Client, script: seq<Command>, work: Root, tx: Contents, prune: bool, reserve: bool,
                      txused: set<nat>)
    requires TxAgreed(c, script, work, tx, prune, reserve, txused)
    ensures tx == c.model && VersionsOk(work.objs) && PinsTold(work.pins, c.pins) && Versioned(work.objs, script)
    ensures prune == c.prune && reserve == c.reserve && |txused| <= c.asked
  {
    assert TxKey(0, c, work);
  }

  lemma TxAgreedNew(c: Client, script: seq<Command>, cmd: Command, work: Root, prune: bool, reserve: bool,
                    txused: set<nat>)
    requires VersionsOk(work.objs) && PinsTold(work.pins, c.pins) && Versioned(work.objs, script)
    requires prune == c.prune && reserve == c.reserve && |txused| <= c.asked
    ensures TxAgreed(c, script + [cmd], work, c.model, prune, reserve, txused)
  {
    VersionedMore(work.objs, script, cmd);
  }

  lemma TxAgreedPut(c: Client, script: seq<Command>, cmd: Command, work: Root, work': Root, prune: bool, reserve: bool,
                    txused: set<nat>, txused': set<nat>, r: Reply)
    requires cmd.DoPut? && TxAgreed(c, script, work, c.model, prune, reserve, txused) && work'.pins == work.pins
    requires if r.st == Ok then PutObjs(work.objs, work'.objs, cmd.name) && VersionsOk(work'.objs) else work' == work
    requires |txused'| <= |txused| + if r.st == Ok || r.st == IoError then NblkFor(|cmd.data|) else 0
    ensures var c' := HeardPut(c, cmd.name, cmd.data, r);
            TxAgreed(c', script + [cmd], work', c'.model, prune, reserve, txused')
  {
    assert TxKey(0, c, work);
    VersionedMore(work.objs, script, cmd);
    if r.st == Ok {
      VersionedPut(work.objs, work'.objs, script, cmd);
    }
  }

  /** The blocks in use are no more than the client expects. */
  lemma AgreedSpace(c: Client, script: seq<Command>, v: seq<Block>, m: seq<set<Block>>, cfg: Config, l: Ledger,
                    saved: nat, used: set<nat>, txused: set<nat>)
    requires Agreed(c, script, l, saved, cfg.n) && c.cur == Some(Top(l).root.gen)
    requires Safe(v, m, cfg, l) && InUse(v, cfg, Top(l).root, Top(l).blk, used) && |txused| <= c.asked
    ensures Expected(c, used + txused)
  {
    AgreedTop(c, script, l, saved, cfg.n);
    ExplainsFacts(c.log, l, saved, c.pending);
    UsedSize(v, m, cfg, l, used, Lost(c.log));
    SpaceSame(l.truth, c.log, Refs(Top(l).root));
    GensOfRoot(Top(l).root);
    assert |used + txused| <= |used| + |txused|;
  }
}
