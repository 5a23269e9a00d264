/** Which generations a store retains over a run, told from the script and the replies alone: a commit lists
    the generations just before it, as many as the format asked for, or only its parent after a prune. */
module StoreRetention {
  import opened Common
  import opened StoreFormat
  import opened NxStore
  import opened StoreClient
  import opened StoreRuns

  /** The n generations before g, newest first. */
  predicate Lists(hist: seq<nat>, g: nat, n: nat) {
    |hist| == n && forall i | 0 <= i < n :: hist[i] + i + 1 == g
  }

  /** This ends a transaction, or begins one. */
  predicate Ends(cmd: Command, r: Reply) {
    cmd.DoAbort? || cmd.DoCommit? || cmd.DoRemount? || cmd.DoPowerFail? || (cmd.DoBegin? && r.st == Ok)
  }

  /** The transaction that is open after the script has been told to prune. */
  ghost predicate Pruning(script: seq<Command>, replies: seq<Reply>)
    requires |script| == |replies|
  {
    exists j | 0 <= j < |script| :: script[j].DoPrune? && forall k | j < k < |script| :: !Ends(script[k], replies[k])
  }

  /** Every generation lists a run of generations before it, no more than there are or than are retained. */
  ghost predicate Chained(c: Client) {
    && c.retain >= RETAIN_MIN && (c.cur.Some? ==> c.cur.value in c.gens)
    && forall g <- c.gens ::
         g >= 1 && |c.gens[g].hist| <= Min(g - 1, c.retain - 1) && Lists(c.gens[g].hist, g, |c.gens[g].hist|)
  }

  /** Every generation lists as many as there are and are retained. */
  ghost predicate Unpruned(c: Client) {
    !c.prune && c.retain >= RETAIN_MIN && forall g <- c.gens :: g >= 1 && |c.gens[g].hist| == Min(g - 1, c.retain - 1)
  }

  predicate Writes(c: Client, cmd: Command, r: Reply) {
    cmd.DoCommit? && c.cur.Some? && (r.st == Ok || r.st == OutcomeUnknown)
  }

  /** What one command does to what the client knows of the generations. */
  lemma HeardGens(c: Client, cmd: Command, r: Reply, taken: set<nat>)
    requires Answers(c, cmd, r, taken)
    ensures var c' := Heard(c, cmd, r);
            && c'.retain == c.retain && c'.gens == (if Writes(c, cmd, r) then c.gens[r.gen := Next(c)] else c.gens)
            && (c'.cur == c.cur || c'.cur.None? || c'.cur.value in c'.gens)
            && (Writes(c, cmd, r) ==> InTx(c) && r.gen == c.cur.value + 1)
  {
    if cmd.DoCommit? {
      HeardWritten(c, cmd, r, taken);
    } else if !cmd.DoRemount? && !cmd.DoPowerFail? {
      HeardElse(c, cmd, r);
    }
  }

  lemma HeardWritten(c: Client, cmd: Command, r: Reply, taken: set<nat>)
    requires Answers(c, cmd, r, taken) && cmd.DoCommit?
    ensures var c' := HeardCommit(c, r);
            && c'.retain == c.retain && c'.gens == (if Writes(c, cmd, r) then c.gens[r.gen := Next(c)] else c.gens)
            && (c'.cur == c.cur || c'.cur.None? || c'.cur.value in c'.gens)
            && (Writes(c, cmd, r) ==> InTx(c) && r.gen == c.cur.value + 1)
  {
  }

  lemma HeardElse(c: Client, cmd: Command, r: Reply)
    requires !cmd.DoCommit? && !cmd.DoRemount? && !cmd.DoPowerFail?
    ensures var c' := Heard(c, cmd, r); c'.retain == c.retain && c'.gens == c.gens && c'.cur == c.cur
  {
    match cmd {
      case DoRead(gen, name, cap) => ReadElse(c, gen, name, cap, r);
      case DoPut(name, _, data) => PutElse(c, name, data, r);
      case DoBegin => BeginElse(c, r);
      case _ =>
    }
  }

  lemma ReadElse(c: Client, gen: nat, name: string, cap: nat, r: Reply)
    ensures var c' := HeardRead(c, gen, name, cap, r); c'.retain == c.retain && c'.gens == c.gens && c'.cur == c.cur
  {
  }

  lemma PutElse(c: Client, name: string, data: Bytes, r: Reply)
    ensures var c' := HeardPut(c, name, data, r); c'.retain == c.retain && c'.gens == c.gens && c'.cur == c.cur
  {
  }

  lemma BeginElse(c: Client, r: Reply)
    ensures var c' := HeardBegin(c, r); c'.retain == c.retain && c'.gens == c.gens && c'.cur == c.cur
  {
  }

  /** What it does to the transaction. */
  lemma HeardPrune(c: Client, cmd: Command, r: Reply, taken: set<nat>)
    requires Answers(c, cmd, r, taken) && (c.prune ==> c.inTx)
    ensures var c' := Heard(c, cmd, r);
            && (c'.prune ==> c'.inTx) && (c'.prune ==> c.prune || cmd.DoPrune?)
            && (InTx(c') ==>
                  if Ends(cmd, r) then !c'.prune else InTx(c) && (c'.prune <==> c.prune || cmd.DoPrune?))
  {
  }

  lemma NextLists(c: Client)
    requires Chained(c) && c.cur.Some?
    ensures var g := c.cur.value;
            Lists(Next(c).hist, g + 1, if c.prune then 1 else Min(c.retain - 1, |c.gens[g].hist| + 1))
  {
    var g := c.cur.value;
    assert Lists(c.gens[g].hist, g, |c.gens[g].hist|);
    var all := [g] + c.gens[g].hist;
    assert forall i | 0 <= i < |all| :: all[i] + i + 1 == g + 1;
  }

  lemma ChainedStep(c: Client, cmd: Command, r: Reply, taken: set<nat>)
    requires Answers(c, cmd, r, taken) && Chained(c)
    ensures Chained(Heard(c, cmd, r))
    ensures Unpruned(c) && !cmd.DoPrune? && (c.prune ==> c.inTx) ==> Unpruned(Heard(c, cmd, r))
  {
    HeardGens(c, cmd, r, taken);
    if c.prune ==> c.inTx {
      HeardPrune(c, cmd, r, taken);
    }
    if Writes(c, cmd, r) {
      NextLists(c);
    }
  }

  lemma AnsweredBefore(first: Client, script: seq<Command>, replies: seq<Reply>, taken: seq<set<nat>>, i: nat)
    requires i <= |script| == |replies| == |taken| && Answered(first, script, replies, taken)
    ensures Answered(first, script[..i], replies[..i], taken[..i])
  {
    forall j | 0 <= j < i ensures AnswerAt(first, script[..i], replies[..i], taken[..i], j) {
      assert AnswerAt(first, script, replies, taken, j);
      assert script[..i][..j] == script[..j] && replies[..i][..j] == replies[..j];
    }
  }

  lemma {:induction false} ChainedRun(size: nat, retain: nat, script: seq<Command>, replies: seq<Reply>,
                                      taken: seq<set<nat>>)
    requires retain >= RETAIN_MIN && |script| == |replies| == |taken|
    requires Answered(NewClient(size, retain), script, replies, taken)
    ensures var c := Replay(NewClient(size, retain), script, replies);
            && Chained(c) && c.retain == retain && (c.prune ==> c.inTx)
            && (InTx(c) ==> (c.prune <==> Pruning(script, replies)))
            && ((forall cmd <- script :: !cmd.DoPrune?) ==> Unpruned(c))
  {
    var first := NewClient(size, retain);
    if script != [] {
      var k := |script| - 1;
      AnsweredBefore(first, script, replies, taken, k);
      ChainedRun(size, retain, script[..k], replies[..k], taken[..k]);
      var c := Replay(first, script[..k], replies[..k]);
      assert AnswerAt(first, script, replies, taken, k);
      HeardGens(c, script[k], replies[k], taken[k]);
      HeardPrune(c, script[k], replies[k], taken[k]);
      ChainedStep(c, script[k], replies[k], taken[k]);
      PruningMore(script, replies, k);
      assert forall cmd <- script[..k] :: cmd in script;
    }
  }

  lemma PruningMore(script: seq<Command>, replies: seq<Reply>, k: nat)
    requires |script| == |replies| == k + 1
    ensures Pruning(script, replies) <==>
              script[k].DoPrune? || (!Ends(script[k], replies[k]) && Pruning(script[..k], replies[..k]))
  {
    var s, rs := script[..k], replies[..k];
    if Pruning(script, replies) && !script[k].DoPrune? {
      var j :| 0 <= j < |script| && script[j].DoPrune? && forall i | j < i < |script| :: !Ends(script[i], replies[i]);
      assert s[j].DoPrune? && forall i | j < i < k :: !Ends(s[i], rs[i]);
    }
    if Pruning(s, rs) && !Ends(script[k], replies[k]) {
      var j :| 0 <= j < k && s[j].DoPrune? && forall i | j < i < k :: !Ends(s[i], rs[i]);
      assert script[j].DoPrune?;
      forall i | j < i < |script| ensures !Ends(script[i], replies[i]) {
        if i < k {
          assert !Ends(s[i], rs[i]);
        }
      }
    }
  }

  ghost predicate WroteKey(k: nat, c: Client, c': Client) {
    true
  }

  /** A commit made c' out of c and lists what it should (behind a key). */
  ghost predicate Wrote(c: Client, c': Client, g: nat) {
    forall k {:trigger WroteKey(k, c, c')} :: WroteKey(k, c, c') ==>
      && InTx(c) && 2 <= g && g - 1 in c.gens && g in c'.gens && c.retain >= RETAIN_MIN
      && Lists(c'.gens[g].hist, g, if c.prune then 1 else Min(c.retain - 1, |c.gens[g - 1].hist| + 1))
  }

  lemma WrittenLists(c: Client, cmd: Command, r: Reply, taken: set<nat>)
    requires Answers(c, cmd, r, taken) && Chained(c) && cmd.DoCommit? && (r.st == Ok || r.st == OutcomeUnknown)
    ensures Wrote(c, Heard(c, cmd, r), r.gen)
  {
    HeardWritten(c, cmd, r, taken);
    NextLists(c);
  }

  lemma CommitAt(first: Client, script: seq<Command>, replies: seq<Reply>, taken: seq<set<nat>>, i: nat)
    requires i < |script| == |replies| == |taken| && AnswerAt(first, script, replies, taken, i)
    requires script[i].DoCommit? && (replies[i].st == Ok || replies[i].st == OutcomeUnknown)
    requires Chained(Replay(first, script[..i], replies[..i]))
    ensures Wrote(Replay(first, script[..i], replies[..i]), Replay(first, script[..i + 1], replies[..i + 1]),
                  replies[i].gen)
  {
    WrittenLists(Replay(first, script[..i], replies[..i]), script[i], replies[i], taken[i]);
    assert script[..i + 1][..i] == script[..i] && replies[..i + 1][..i] == replies[..i];
  }

  /** A commit lists its parent and then what its parent lists, up to retain - 1 in all; only its parent if the
      transaction was told to prune. */
  lemma CommitRetains(size: nat, retain: nat, script: seq<Command>, replies: seq<Reply>, taken: seq<set<nat>>, i: nat)
    requires retain >= RETAIN_MIN && i < |script| == |replies| == |taken|
    requires Answered(NewClient(size, retain), script, replies, taken)
    requires script[i].DoCommit? && (replies[i].st == Ok || replies[i].st == OutcomeUnknown)
    ensures var first, g := NewClient(size, retain), replies[i].gen;
            var c, c' := Replay(first, script[..i], replies[..i]), Replay(first, script[..i + 1], replies[..i + 1]);
            && g >= 2 && g - 1 in c.gens && g in c'.gens
            && Lists(c'.gens[g].hist, g, if Pruning(script[..i], replies[..i]) then 1
                                         else Min(retain - 1, |c.gens[g - 1].hist| + 1))
  {
    var first := NewClient(size, retain);
    AnsweredBefore(first, script, replies, taken, i);
    ChainedRun(size, retain, script[..i], replies[..i], taken[..i]);
    CommitAt(first, script, replies, taken, i);
    assert WroteKey(0, Replay(first, script[..i], replies[..i]), Replay(first, script[..i + 1], replies[..i + 1]));
  }

  /** As long as nothing is pruned, generation g lists exactly the generations from g - retain + 1, or from the
      first, to g - 1, whatever failed and however often the store was mounted again. */
  lemma UnprunedRetains(size: nat, retain: nat, script: seq<Command>, replies: seq<Reply>, taken: seq<set<nat>>, g: nat)
    requires retain >= RETAIN_MIN && |script| == |replies| == |taken|
    requires Answered(NewClient(size, retain), script, replies, taken) && (forall cmd <- script :: !cmd.DoPrune?)
    requires g in Replay(NewClient(size, retain), script, replies).gens
    ensures g >= 1 && Lists(Replay(NewClient(size, retain), script, replies).gens[g].hist, g, Min(g - 1, retain - 1))
  {
    ChainedRun(size, retain, script, replies, taken);
  }

  /** So a read of generation h, from generation g, says Pruned exactly if h is not one of the `retain` newest
      and g holds no pin on it. */
  lemma UnprunedReads(size: nat, retain: nat, script: seq<Command>, replies: seq<Reply>, taken: seq<set<nat>>, i: nat)
    requires retain >= RETAIN_MIN && i < |script| == |replies| == |taken|
    requires Answered(NewClient(size, retain), script, replies, taken) && (forall cmd <- script :: !cmd.DoPrune?)
    requires script[i].DoRead? && Replay(NewClient(size, retain), script[..i], replies[..i]).cur.Some?
    ensures var c := Replay(NewClient(size, retain), script[..i], replies[..i]);
            var g, h := c.cur.value, script[i].gen;
            && g in c.gens
            && (replies[i].st == Pruned <==>
                  h != 0 && !(g - retain < h <= g) && forall p <- c.gens[g].pins :: p.gen != h)
  {
    var first := NewClient(size, retain);
    AnsweredBefore(first, script, replies, taken, i);
    assert forall cmd <- script[..i] :: cmd in script;
    ChainedRun(size, retain, script[..i], replies[..i], taken[..i]);
    var c := Replay(first, script[..i], replies[..i]);
    assert AnswerAt(first, script, replies, taken, i);
    var g := c.cur.value;
    assert Lists(c.gens[g].hist, g, Min(g - 1, retain - 1));
    GensListed(c.gens[g], g, Min(g - 1, retain - 1), script[i].gen);
  }

  lemma GensListed(k: Kept, g: nat, n: nat, h: nat)
    requires Lists(k.hist, g, n)
    ensures h in GensOf(k) <==> g - n <= h < g || exists p <- k.pins :: p.gen == h
  {
    ElementsHas(AllGens(k), h);
    if g - n <= h < g {
      assert k.hist[g - 1 - h] == h;
      assert AllGens(k)[g - 1 - h] == h;
    }
    if p :| p in k.pins && p.gen == h {
      var i :| 0 <= i < |k.pins| && k.pins[i] == p;
      assert AllGens(k)[n + i] == h;
    }
    if h in AllGens(k) {
      var i :| 0 <= i < |AllGens(k)| && AllGens(k)[i] == h;
      if i >= n {
        assert k.pins[i - n] in k.pins;
      }
    }
  }
}
