/** What a client of the store sees: the log of a run, and what it promises. */
module StoreLog {
  import opened Common
  import opened StoreFormat
  import opened StoreRecovery
  import opened StoreInvariant
  import opened NxStore

  /** Attempt: a commit got as far as the superblock; Saved: it reported Ok; Touched: a request that
      reached the device for a transaction; Mounted: a mount accepted `gen`, which retains `kept`,
      `risky` if the commit of `gen` had ended in OutcomeUnknown without a power cycle since; Got: a read
      of the current or of a retained generation. */
  datatype Event =
    | Attempt(gen: nat, objs: Contents)
    | Saved(gen: nat)
    | Touched
    | Mounted(gen: nat, risky: bool, kept: set<nat>)
    | Got(gen: nat, current: bool, name: string, cap: nat, st: Status, bytes: Bytes)

  /** The objects that the latest attempt at `gen` committed; generation 1 is the empty store. */
  function Latest(log: seq<Event>, gen: nat): Contents {
    if log == [] then map[]
    else
      var k := |log| - 1;
      if log[k].Attempt? && log[k].gen == gen then log[k].objs else Latest(log[..k], gen)
  }

  function LastSaved(log: seq<Event>): nat {
    if log == [] then 1 else if log[|log| - 1].Saved? then log[|log| - 1].gen else LastSaved(log[..|log| - 1])
  }

  function LastAttempt(log: seq<Event>): nat {
    if log == [] then 1 else if log[|log| - 1].Attempt? then log[|log| - 1].gen else LastAttempt(log[..|log| - 1])
  }

  // ---- generations that may be lost ----

  /** The store runs on a generation, retaining `kept`, whose superblock may be only in the cache; it has
      written since or not. */
  datatype Hazard = Calm | Over(gen: nat, kept: set<nat>, wrote: bool)

  datatype Doubt = Doubt(hazard: Hazard, lost: set<nat>)

  /** A risky mount opens the hazard, the next commit that reaches the superblock closes it.  If power
      fails after a write and brings an older generation back, what that one retains and the newer one
      did not may be lost. */
  function After(d: Doubt, e: Event): Doubt {
    match e
    case Attempt(_, _) => d.(hazard := Calm)
    case Saved(_) => d
    case Got(_, _, _, _, _, _) => d
    case Touched => if d.hazard.Over? then d.(hazard := d.hazard.(wrote := true)) else d
    case Mounted(gen, risky, kept) =>
      if risky then if d.hazard.Calm? then d.(hazard := Over(gen, kept, false)) else d
      else if d.hazard.Over? && d.hazard.wrote && gen < d.hazard.gen then Doubt(Calm, d.lost + (kept - d.hazard.kept))
      else d.(hazard := Calm)
  }

  function DoubtOf(log: seq<Event>): Doubt {
    if log == [] then Doubt(Calm, {}) else After(DoubtOf(log[..|log| - 1]), log[|log| - 1])
  }

  function Lost(log: seq<Event>): set<nat> {
    DoubtOf(log).lost
  }

  // ---- what the log promises ----

  /** A mount finds a generation no older than the last one reported saved and no newer than the last one
      attempted.  A read of the current generation returns what was committed in it; so does a read of
      any other retained generation that is not in doubt. */
  ghost predicate EventOk(log: seq<Event>, e: Event) {
    match e
    case Attempt(_, _) => true
    case Touched => true
    case Saved(gen) => LastSaved(log) < gen == LastAttempt(log)
    case Mounted(gen, _, _) => LastSaved(log) <= gen <= LastAttempt(log)
    case Got(gen, current, name, cap, st, bytes) =>
      current || gen !in Lost(log) ==> ReadsAs(Latest(log, gen), name, cap, st, bytes)
  }

  ghost predicate Consistent(log: seq<Event>) {
    forall i | 0 <= i < |log| :: EventOk(log[..i], log[i])
  }

  lemma Appended(log: seq<Event>, e: Event)
    requires Consistent(log) && EventOk(log, e)
    ensures Consistent(log + [e]) && DoubtOf(log + [e]) == After(DoubtOf(log), e)
    ensures LastSaved(log + [e]) == if e.Saved? then e.gen else LastSaved(log)
    ensures LastAttempt(log + [e]) == if e.Attempt? then e.gen else LastAttempt(log)
    ensures forall g :: Latest(log + [e], g) == if e.Attempt? && e.gen == g then e.objs else Latest(log, g)
  {
    var log' := log + [e];
    assert log'[..|log|] == log;
    forall i | 0 <= i < |log'| ensures EventOk(log'[..i], log'[i]) {
      assert i < |log| ==> log'[..i] == log[..i];
    }
  }

  // ---- how the ledger of the store explains the log ----

  /** The generations that a root retains. */
  function GenSet(r: Root): set<nat> {
    set f | f in Refs(r) :: f.gen
  }

  /** A root refers to a generation in one way only. */
  ghost predicate OneRef(r: Root) {
    forall f <- Refs(r), h <- Refs(r) :: f.gen == h.gen ==> f == h
  }

  /** What both retain, they refer to in the same way. */
  ghost predicate Agree(r: Root, next: Root) {
    forall f <- Refs(r) :: f.gen in GenSet(next) ==> f in Refs(next)
  }

  /** w retains only what r does, and r itself, by `own`. */
  ghost predicate Follows(r: Root, w: Root, own: Ref) {
    own.gen == r.gen && (forall f <- Refs(r) :: f.gen < r.gen) && forall f <- Refs(w) :: f == own || f in Refs(r)
  }

  lemma FollowsAgree(r: Root, w: Root, own: Ref)
    requires OneRef(r) && Follows(r, w, own)
    ensures OneRef(w) && Agree(r, w)
  {
    forall f <- Refs(r) | f.gen in GenSet(w) ensures f in Refs(w) {
      var h :| h in Refs(w) && h.gen == f.gen;
    }
  }

  /** What the base retains may be in doubt while the newest superblock is only in the cache. */
  function Exposed(d: Doubt, base: Root): set<nat> {
    if d.hazard.Over? && d.hazard.wrote then GenSet(base) - d.hazard.kept else {}
  }

  ghost predicate LostExplained(l: Ledger, d: Doubt) {
    match l.next
    case None => l.baseLost <= d.lost
    case Some(g) =>
      && l.nextLost <= d.lost && l.baseLost <= d.lost + Exposed(d, l.base.root)
      && (d.hazard.Over? ==> d.hazard.gen == g.root.gen && d.hazard.kept == GenSet(g.root))
  }

  ghost predicate LogKey(k: nat, log: seq<Event>, l: Ledger) { true }

  ghost predicate Explains(log: seq<Event>, l: Ledger, saved: nat, pending: Option<nat>) {
    forall k {:trigger LogKey(k, log, l)} :: LogKey(k, log, l) ==>
      && Consistent(log)
      && (forall g <- l.truth :: l.truth[g] == Latest(log, g))
      && saved == LastSaved(log) && saved <= l.base.root.gen && Top(l).root.gen <= LastAttempt(log)
      && (l.next.Some? ==> pending == Some(l.next.value.root.gen) && l.base.root.gen < l.next.value.root.gen)
      && LostExplained(l, DoubtOf(log))
      && OneRef(l.base.root) && (l.next.Some? ==> OneRef(l.next.value.root) && Agree(l.base.root, l.next.value.root))
  }

  lemma ExplainsFacts(log: seq<Event>, l: Ledger, saved: nat, pending: Option<nat>)
    requires Explains(log, l, saved, pending)
    ensures Consistent(log) && (l.next.Some? ==> pending == Some(l.next.value.root.gen))
    ensures (forall g <- l.truth :: l.truth[g] == Latest(log, g)) && TopLost(l) <= Lost(log)
    ensures OneRef(Top(l).root)
  {
    assert LogKey(0, log, l);
  }

  lemma ExplainsMount(log: seq<Event>, l: Ledger, saved: nat, pending: Option<nat>, risky: bool)
    requires Explains(log, l, saved, pending) && l.base.root.gen <= Top(l).root.gen
    requires l.next.Some? ==> risky
    ensures Explains(log + [Mounted(Top(l).root.gen, risky, GenSet(Top(l).root))], l, saved, pending)
    ensures l.next.Some? ==> DoubtOf(log + [Mounted(Top(l).root.gen, risky, GenSet(Top(l).root))]).hazard.Over?
  {
    assert LogKey(0, log, l);
    Appended(log, Mounted(Top(l).root.gen, risky, GenSet(Top(l).root)));
  }

  lemma DroppedGens(g: Root, h: Root)
    requires Agree(g, h)
    ensures Dropped(g, h) <= GenSet(g) - GenSet(h)
  {
  }

  /** A request for a transaction reached the device. */
  lemma ExplainsTouched(log: seq<Event>, l: Ledger, saved: nat, pending: Option<nat>)
    requires Explains(log, l, saved, pending) && (l.next.Some? ==> DoubtOf(log).hazard.Over?)
    ensures Explains(log + [Touched], Spent(l), saved, pending)
    ensures l.next.Some? ==> DoubtOf(log + [Touched]).hazard.Over?
  {
    assert LogKey(0, log, l);
    Appended(log, Touched);
    if l.next.Some? {
      DroppedGens(l.base.root, l.next.value.root);
    }
  }

  /** A commit that reached the superblock: the outcome is not known. */
  lemma ExplainsAttempt(log: seq<Event>, l: Ledger, l': Ledger, saved: nat, pending: Option<nat>, w: Root, c: Contents)
    requires Explains(log, l, saved, pending) && w.gen == Top(l).root.gen + 1 && l.base.root.gen <= Top(l).root.gen
    requires Committed(l, l', w, c, false) && OneRef(w) && Agree(Top(l).root, w)
    ensures Explains(log + [Attempt(w.gen, c)], l', saved, Some(w.gen))
  {
    assert LogKey(0, log, l);
    Appended(log, Attempt(w.gen, c));
  }

  /** A commit that reported Ok. */
  lemma ExplainsSaved(log: seq<Event>, l: Ledger, l': Ledger, saved: nat, pending: Option<nat>, w: Root, c: Contents)
    requires Explains(log, l, saved, pending) && w.gen == Top(l).root.gen + 1 && l.base.root.gen <= Top(l).root.gen
    requires Committed(l, l', w, c, true) && OneRef(w)
    ensures Explains(log + [Attempt(w.gen, c)] + [Saved(w.gen)], l', w.gen, None)
  {
    assert LogKey(0, log, l);
    Appended(log, Attempt(w.gen, c));
    Appended(log + [Attempt(w.gen, c)], Saved(w.gen));
  }

  lemma ExplainsCommit(log: seq<Event>, l: Ledger, l': Ledger, saved: nat, pending: Option<nat>, w: Root, own: Ref,
                       c: Contents, done: bool)
    requires Follows(Top(l).root, w, own)
    requires Explains(log, l, saved, pending) && w.gen == Top(l).root.gen + 1 && l.base.root.gen <= Top(l).root.gen
    requires Committed(l, l', w, c, done)
    ensures var log' := log + [Attempt(w.gen, c)];
      if done then Explains(log' + [Saved(w.gen)], l', w.gen, None) else Explains(log', l', saved, Some(w.gen))
  {
    ExplainsFacts(log, l, saved, pending);
    FollowsAgree(Top(l).root, w, own);
    if done {
      ExplainsSaved(log, l, l', saved, pending, w, c);
    } else {
      ExplainsAttempt(log, l, l', saved, pending, w, c);
    }
  }

  /** Power failed and came back: a mount finds the base or its announced successor. */
  lemma ExplainsRestart(log: seq<Event>, l: Ledger, l': Ledger, saved: nat, pending: Option<nat>)
    requires Explains(log, l, saved, pending) && l.base.root.gen <= Top(l).root.gen
    requires l' == l.(next := None) || l' == Promoted(l)
    ensures l'.next.None? && Explains(log + [Mounted(l'.base.root.gen, false, GenSet(l'.base.root))], l', saved, None)
  {
    assert LogKey(0, log, l);
    Appended(log, Mounted(l'.base.root.gen, false, GenSet(l'.base.root)));
  }

  lemma ExplainsGot(log: seq<Event>, l: Ledger, saved: nat, pending: Option<nat>, gen: nat, current: bool,
                    name: string, cap: nat, st: Status, bytes: Bytes)
    requires Explains(log, l, saved, pending)
    requires current || gen !in TopLost(l) ==> gen in l.truth && ReadsAs(l.truth[gen], name, cap, st, bytes)
    ensures var e := Got(gen, current, name, cap, st, bytes);
            Explains(log + [e], l, saved, pending) && DoubtOf(log + [e]) == DoubtOf(log)
  {
    assert LogKey(0, log, l);
    Appended(log, Got(gen, current, name, cap, st, bytes));
  }
}
