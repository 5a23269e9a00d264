/** A client of the store: what it knows from its commands and the replies to them, and which replies that
    leaves possible. */
module StoreClient {
  import opened Common
  import opened StoreFormat
  import opened StoreRecovery
  import opened StoreInvariant
  import opened StoreTransaction
  import opened NxStore
  import opened StoreLog
  import opened StoreSpace

  datatype Command =
    | DoBegin | DoPut(name: string, kind: nat, data: Bytes) | DoDel(name: string)
    | DoPin(name: string, gen: nat) | DoUnpin(name: string) | DoPrune | DoReserve | DoAbort
    | DoCommit(text: string) | DoRead(gen: nat, name: string, cap: nat)
    | DoRemount(boot: nat) | DoPowerFail(boot: nat)

  /** What a command returned: a status; the generation of a commit or a mount; the bytes of a read. */
  datatype Reply = Reply(st: Status, gen: nat, bytes: Bytes)

  function Plain(st: Status): Reply {
    Reply(st, 0, [])
  }

  // ---- what a generation retains ----

  datatype Held = Held(name: string, gen: nat)

  /** The generations before it, newest first, and those that are pinned. */
  datatype Kept = Kept(hist: seq<nat>, pins: seq<Held>)

  function Elements(s: seq<nat>): set<nat> {
    if s == [] then {} else Elements(s[..|s| - 1]) + {s[|s| - 1]}
  }

  function HeldGens(pins: seq<Held>): (gens: seq<nat>)
    ensures |gens| == |pins| && forall i | 0 <= i < |pins| :: gens[i] == pins[i].gen
  {
    if pins == [] then [] else HeldGens(pins[..|pins| - 1]) + [pins[|pins| - 1].gen]
  }

  function AllGens(k: Kept): seq<nat> {
    k.hist + HeldGens(k.pins)
  }

  function GensOf(k: Kept): set<nat> {
    Elements(AllGens(k))
  }

  function GensIn(fs: seq<Ref>): (gens: seq<nat>)
    ensures |gens| == |fs| && forall i | 0 <= i < |fs| :: gens[i] == fs[i].gen
  {
    if fs == [] then [] else GensIn(fs[..|fs| - 1]) + [fs[|fs| - 1].gen]
  }

  function PinGens(pins: seq<Pin>): (held: seq<Held>)
    ensures |held| == |pins| && forall i | 0 <= i < |pins| :: held[i] == Held(pins[i].name, pins[i].ref.gen)
  {
    if pins == [] then [] else PinGens(pins[..|pins| - 1]) + [Held(pins[|pins| - 1].name, pins[|pins| - 1].ref.gen)]
  }

  function KeptOf(r: Root): Kept {
    Kept(GensIn(r.hist), PinGens(r.pins))
  }

  function WithoutHeld(pins: seq<Held>, name: string): seq<Held> {
    if pins == [] then [] else if pins[0].name == name then pins[1..] else [pins[0]] + WithoutHeld(pins[1..], name)
  }

  predicate Pinned(pins: seq<Held>, name: string) {
    exists p <- pins :: p.name == name
  }

  // ---- the client ----

  /** The size of the store and how many generations it retains; what each generation retains; the log; the
      generation the client runs on, and a commit whose outcome it does not know; and of its open
      transaction the objects, the pins, whether it prunes and may use the reserve, and how many blocks it
      has asked for. */
  datatype Client = Client(size: nat, retain: nat, gens: map<nat, Kept>, log: seq<Event>, cur: Option<nat>,
                           pending: Option<nat>,
                           inTx: bool, model: Contents, pins: seq<Held>, prune: bool, reserve: bool, asked: nat)

  function NewClient(size: nat, retain: nat): Client {
    Client(size, retain, map[1 := Kept([], [])], [], None, None, false, map[], [], false, false, 0)
  }

  predicate InTx(c: Client) {
    c.cur.Some? && c.inTx
  }

  /** What the generation it runs on retains. */
  function Now(c: Client): Kept {
    if c.cur.Some? && c.cur.value in c.gens then c.gens[c.cur.value] else Kept([], [])
  }

  /** What a commit will retain: the current generation, of its history as much as leaves `retain` generations
      with the new one, or none of it after a prune; and the pins. */
  function Next(c: Client): Kept
    requires c.cur.Some?
  {
    Kept(if c.prune then [c.cur.value] else First([c.cur.value] + Now(c).hist, c.retain - 1), c.pins)
  }

  /** The first n of them, or all if there are fewer. */
  function First(s: seq<nat>, n: int): seq<nat> {
    if n >= |s| then s else if n < 0 then [] else s[..n]
  }

  function NoTx(c: Client): Client {
    c.(inTx := false, prune := false, reserve := false, asked := 0)
  }

  /** It runs on generation g, which retains what the client knows it to. */
  function Remounted(c: Client, g: nat, risky: bool): Client {
    var kept := if g in c.gens then GensOf(c.gens[g]) else {};
    NoTx(c).(log := c.log + [Mounted(g, risky, kept)], cur := Some(g))
  }

  /** It runs on g after a power failure. */
  function Awakened(c: Client, g: nat): Client {
    Remounted(c, g, false).(pending := None)
  }

  function HeardBegin(c: Client, r: Reply): Client {
    if r.st == Ok && c.cur.Some?
    then NoTx(c).(inTx := true, model := Latest(c.log, c.cur.value), pins := Now(c).pins) else c
  }

  function HeardPut(c: Client, name: string, data: Bytes, r: Reply): Client {
    var c' := if (r.st == Ok || r.st == IoError) && data != []
              then c.(log := c.log + [Touched], asked := c.asked + NblkFor(|data|)) else c;
    if r.st == Ok then c'.(model := c.model[name := data]) else c'
  }

  function HeardCommit(c: Client, r: Reply): Client {
    if r.st == BadState || c.cur.None? then c
    else if r.st == Ok then
      NoTx(c).(log := c.log + [Attempt(r.gen, c.model)] + [Saved(r.gen)], gens := c.gens[r.gen := Next(c)],
               cur := Some(r.gen), pending := None)
    else if r.st == OutcomeUnknown then
      NoTx(c).(log := c.log + [Attempt(r.gen, c.model)], gens := c.gens[r.gen := Next(c)], cur := None,
               pending := Some(r.gen))
    else NoTx(c).(log := if r.st == IoError then c.log + [Touched] else c.log)
  }

  function HeardRead(c: Client, gen: nat, name: string, cap: nat, r: Reply): Client {
    if c.cur.None? || r.st == Pruned then c
    else if gen == 0 || gen == c.cur.value then
      c.(log := c.log + [Got(c.cur.value, true, name, cap, r.st, r.bytes)])
    else c.(log := c.log + [Got(gen, false, name, cap, r.st, r.bytes)])
  }

  /** What the client knows after one more command. */
  function Heard(c: Client, cmd: Command, r: Reply): Client {
    match cmd
    case DoBegin => HeardBegin(c, r)
    case DoPut(name, _, data) => HeardPut(c, name, data, r)
    case DoDel(name) => if r.st == Ok then c.(model := c.model - {name}) else c
    case DoPin(name, gen) => if r.st == Ok then c.(pins := c.pins + [Held(name, gen)]) else c
    case DoUnpin(name) => if r.st == Ok then c.(pins := WithoutHeld(c.pins, name)) else c
    case DoPrune => c.(prune := c.inTx || c.prune)
    case DoReserve => c.(reserve := c.inTx || c.reserve)
    case DoAbort => NoTx(c)
    case DoCommit(_) => HeardCommit(c, r)
    case DoRead(gen, name, cap) => HeardRead(c, gen, name, cap, r)
    case DoRemount(_) => Remounted(c, r.gen, c.pending == Some(r.gen))
    case DoPowerFail(_) => Awakened(c, r.gen)
  }

  // ---- the room there is ----

  /** The most that these generations take. */
  ghost function GensSpace(log: seq<Event>, gens: seq<nat>): nat {
    if gens == [] then 0
    else
      var g := gens[|gens| - 1];
      GensSpace(log, gens[..|gens| - 1]) + if g in Lost(log) then GEN_MAX_BLOCKS else 1 + Blocks(Latest(log, g))
  }

  /** No more blocks than these are taken: the superblocks, the current generation, what it retains, and what
      the transaction has asked for. */
  ghost function Need(c: Client): nat
    requires c.cur.Some?
  {
    2 + (1 + Blocks(Latest(c.log, c.cur.value))) + GensSpace(c.log, AllGens(Now(c))) + c.asked
  }

  ghost predicate NeedKey(k: nat, c: Client, taken: set<nat>) {
    true
  }

  /** No more is taken than the client expects (behind a key). */
  ghost predicate Expected(c: Client, taken: set<nat>) {
    forall k {:trigger NeedKey(k, c, taken)} :: NeedKey(k, c, taken) ==> c.cur.Some? && |taken| <= Need(c)
  }

  // ---- which replies a command can get ----

  /** What a put that the device does not fail returns, with these blocks taken. */
  ghost function PutAnswer(c: Client, name: string, data: Bytes, taken: set<nat>): Status {
    if !InTx(c) then BadState
    else if !NameOk(name) then BadName
    else if |data| > OBJ_MAX_BYTES then TooBig
    else if |c.model| >= OBJ_MAX && name !in c.model then ObjFull
    else if data != [] && NoRoom(NblkFor(|data|), c.reserve, c.size, taken) then NoSpace
    else Ok
  }

  function PinAnswer(c: Client, name: string, gen: nat): Status {
    if !InTx(c) then BadState
    else if !PinNameOk(name) then BadName
    else if Pinned(c.pins, name) then Exists
    else if |c.pins| >= PIN_MAX then PinFull
    else if gen == c.cur.value || gen in GensOf(Now(c)) then Ok
    else Pruned
  }

  ghost function CommitAnswer(c: Client, text: string, taken: set<nat>): Status {
    if !InTx(c) then BadState
    else if !LabelOk(text) then BadName
    else if NoRoom(1, true, c.size, taken) then NoSpace
    else Ok
  }

  /** The current and every retained generation can be read, and no other. */
  predicate ReadAnswer(c: Client, gen: nat, st: Status) {
    if c.cur.None? then st == BadState
    else if gen == 0 || gen == c.cur.value || gen in GensOf(Now(c))
    then st == Ok || st == NotFound || st == TooBig || st == Corrupt
    else st == Pruned
  }

  /** Which replies a command can get, `taken` being the blocks in use.  Every mount succeeds, and with a
      generation that has been committed. */
  ghost predicate Answers(c: Client, cmd: Command, r: Reply, taken: set<nat>) {
    && (InTx(c) ==> Expected(c, taken))
    && match cmd
       case DoBegin => r.st == if c.cur.Some? && !c.inTx then Ok else BadState
       case DoPut(name, _, data) =>
         var st := PutAnswer(c, name, data, taken); r.st == st || (st == Ok && data != [] && r.st == IoError)
       case DoDel(name) => r.st == if !InTx(c) then BadState else if name in c.model then Ok else NotFound
       case DoPin(name, gen) => r.st == PinAnswer(c, name, gen)
       case DoUnpin(name) => r.st == if !InTx(c) then BadState else if Pinned(c.pins, name) then Ok else NotFound
       case DoCommit(text) =>
         var st := CommitAnswer(c, text, taken);
         && (r.st == st || (st == Ok && (r.st == IoError || r.st == OutcomeUnknown)))
         && (r.st == Ok || r.st == OutcomeUnknown ==> r.gen == c.cur.value + 1)
       case DoRead(gen, _, _) => ReadAnswer(c, gen, r.st)
       case DoRemount(_) => r.st == Ok && r.gen in c.gens
       case DoPowerFail(_) => r.st == Ok && r.gen in c.gens
       case _ => r.st == Ok
  }

  ghost predicate TurnKey(k: nat, c: Client, cmd: Command, r: Reply) {
    true
  }

  /** One command and its reply (behind a key). */
  ghost predicate Turn(c: Client, cmd: Command, r: Reply, taken: set<nat>, c': Client) {
    forall k {:trigger TurnKey(k, c, cmd, r)} ::
      TurnKey(k, c, cmd, r) ==> Answers(c, cmd, r, taken) && c' == Heard(c, cmd, r)
  }

  lemma TurnBegin(c: Client, r: Reply, taken: set<nat>)
    requires (InTx(c) ==> Expected(c, taken)) && r.st == if c.cur.Some? && !c.inTx then Ok else BadState
    ensures Turn(c, DoBegin, r, taken, HeardBegin(c, r))
  {
  }

  lemma TurnPut(c: Client, name: string, kind: nat, data: Bytes, r: Reply, taken: set<nat>)
    requires InTx(c) ==> Expected(c, taken)
    requires var st := PutAnswer(c, name, data, taken); r.st == st || (st == Ok && data != [] && r.st == IoError)
    ensures Turn(c, DoPut(name, kind, data), r, taken, HeardPut(c, name, data, r))
  {
  }

  lemma TurnDel(c: Client, name: string, r: Reply, taken: set<nat>)
    requires InTx(c) ==> Expected(c, taken)
    requires r.st == if !InTx(c) then BadState else if name in c.model then Ok else NotFound
    ensures Turn(c, DoDel(name), r, taken, if r.st == Ok then c.(model := c.model - {name}) else c)
  {
  }

  lemma TurnPin(c: Client, name: string, gen: nat, r: Reply, taken: set<nat>)
    requires (InTx(c) ==> Expected(c, taken)) && r.st == PinAnswer(c, name, gen)
    ensures Turn(c, DoPin(name, gen), r, taken, if r.st == Ok then c.(pins := c.pins + [Held(name, gen)]) else c)
  {
  }

  lemma TurnUnpin(c: Client, name: string, r: Reply, taken: set<nat>)
    requires InTx(c) ==> Expected(c, taken)
    requires r.st == if !InTx(c) then BadState else if Pinned(c.pins, name) then Ok else NotFound
    ensures Turn(c, DoUnpin(name), r, taken, if r.st == Ok then c.(pins := WithoutHeld(c.pins, name)) else c)
  {
  }

  lemma TurnFlag(c: Client, r: Reply, taken: set<nat>)
    requires (InTx(c) ==> Expected(c, taken)) && r.st == Ok
    ensures Turn(c, DoPrune, r, taken, c.(prune := c.inTx || c.prune))
    ensures Turn(c, DoReserve, r, taken, c.(reserve := c.inTx || c.reserve))
    ensures Turn(c, DoAbort, r, taken, NoTx(c))
  {
  }

  lemma TurnCommit(c: Client, text: string, r: Reply, taken: set<nat>)
    requires InTx(c) ==> Expected(c, taken)
    requires var st := CommitAnswer(c, text, taken);
             r.st == st || (st == Ok && (r.st == IoError || r.st == OutcomeUnknown))
    requires r.st == Ok || r.st == OutcomeUnknown ==> c.cur.Some? && r.gen == c.cur.value + 1
    ensures Turn(c, DoCommit(text), r, taken, HeardCommit(c, r))
  {
  }

  lemma TurnRead(c: Client, gen: nat, name: string, cap: nat, r: Reply, taken: set<nat>)
    requires (InTx(c) ==> Expected(c, taken)) && ReadAnswer(c, gen, r.st)
    ensures Turn(c, DoRead(gen, name, cap), r, taken, HeardRead(c, gen, name, cap, r))
  {
  }

  lemma TurnMount(c: Client, boot: nat, r: Reply, taken: set<nat>)
    requires (InTx(c) ==> Expected(c, taken)) && r.st == Ok && r.gen in c.gens
    ensures Turn(c, DoRemount(boot), r, taken, Remounted(c, r.gen, c.pending == Some(r.gen)))
  {
  }

  lemma TurnRestart(c: Client, boot: nat, r: Reply, taken: set<nat>)
    requires (InTx(c) ==> Expected(c, taken)) && r.st == Ok && r.gen in c.gens
    ensures Turn(c, DoPowerFail(boot), r, taken, Awakened(c, r.gen))
  {
  }

  lemma {:induction false} FreeAtLeast(lo: nat, hi: nat, taken: set<nat>)
    requires lo <= hi
    ensures CountFree(lo, hi, taken) + |taken| >= hi - lo
    decreases hi
  {
    if lo < hi {
      if hi - 1 in taken {
        FreeAtLeast(lo, hi - 1, taken - {hi - 1});
        FreeSame(lo, hi - 1, taken, taken - {hi - 1});
      } else {
        FreeAtLeast(lo, hi - 1, taken);
      }
    }
  }

  lemma {:induction false} FreeSame(lo: nat, hi: nat, taken: set<nat>, taken': set<nat>)
    requires lo <= hi && forall b | lo <= b < hi :: b in taken <==> b in taken'
    ensures CountFree(lo, hi, taken) == CountFree(lo, hi, taken')
    decreases hi
  {
    if lo < hi {
      FreeSame(lo, hi - 1, taken, taken');
    }
  }

  lemma {:induction false} FreeOne(lo: nat, hi: nat, taken: set<nat>) returns (b: nat)
    requires lo <= hi && CountFree(lo, hi, taken) > 0
    ensures lo <= b < hi && b !in taken
    decreases hi
  {
    if hi - 1 !in taken {
      b := hi - 1;
    } else {
      b := FreeOne(lo, hi - 1, taken);
    }
  }

  /** There is room for a block, and for the reserve, as long as the store is larger by that than what the
      client expects to be taken: then a put of up to 4096 bytes and a commit are not refused for space. */
  lemma OneBlockFits(c: Client, taken: set<nat>)
    requires InTx(c) && Expected(c, taken) && c.size >= Need(c) + 2 + 1 + RESERVE_BLOCKS
    ensures !NoRoom(1, c.reserve, c.size, taken) && !NoRoom(1, true, c.size, taken)
  {
    assert NeedKey(0, c, taken);
    FreeAtLeast(FIRST_DATA, c.size, taken);
    var b := FreeOne(FIRST_DATA, c.size, taken);
    assert FreeRun(b, 1, c.size, taken);
  }

  /** The replies that report a failure of the device. */
  function Failed(r: Reply): nat {
    if (r.st == IoError || r.st == OutcomeUnknown) then 1 else 0
  }

  // ---- how the roots of the store show what the client knows ----

  ghost predicate ToldKey(k: nat, gens: map<nat, Kept>, r: Root) {
    true
  }

  /** The client knows what the root retains (behind a key). */
  ghost predicate Told(gens: map<nat, Kept>, retain: nat, r: Root) {
    forall k {:trigger ToldKey(k, gens, r)} :: ToldKey(k, gens, r) ==>
      r.gen in gens && gens[r.gen] == KeptOf(r) && retain == r.retain
  }

  lemma ToldFacts(gens: map<nat, Kept>, retain: nat, r: Root)
    requires Told(gens, retain, r)
    ensures r.gen in gens && gens[r.gen] == KeptOf(r) && retain == r.retain && GensOf(KeptOf(r)) == GenSet(r)
  {
    assert ToldKey(0, gens, r);
    GensOfRoot(r);
  }

  lemma ToldElse(gens: map<nat, Kept>, retain: nat, r: Root, g: nat, kept: Kept)
    requires Told(gens, retain, r) && g != r.gen
    ensures Told(gens[g := kept], retain, r)
  {
    assert ToldKey(0, gens, r);
  }

  ghost predicate PinsKey(k: nat, pins: seq<Pin>, held: seq<Held>) {
    true
  }

  /** These are the pins that the client knows (behind a key). */
  ghost predicate PinsTold(pins: seq<Pin>, held: seq<Held>) {
    forall k {:trigger PinsKey(k, pins, held)} :: PinsKey(k, pins, held) ==> PinGens(pins) == held
  }

  lemma PinsToldFacts(pins: seq<Pin>, held: seq<Held>, name: string)
    requires PinsTold(pins, held)
    ensures |held| == |pins| && (Pinned(held, name) <==> exists p <- pins :: p.name == name)
    ensures PinsTold(WithoutPin(pins, name), WithoutHeld(held, name))
  {
    assert PinsKey(0, pins, held);
    PinnedSame(pins, name);
    WithoutSame(pins, name);
  }

  lemma PinsToldMore(pins: seq<Pin>, held: seq<Held>, p: Pin)
    requires PinsTold(pins, held)
    ensures PinsTold(pins + [p], held + [Held(p.name, p.ref.gen)])
  {
    assert PinsKey(0, pins, held);
    assert PinGens(pins + [p]) == PinGens(pins) + [Held(p.name, p.ref.gen)];
  }

  lemma PinsToldRoot(gens: map<nat, Kept>, retain: nat, r: Root)
    requires Told(gens, retain, r)
    ensures r.gen in gens && PinsTold(r.pins, gens[r.gen].pins)
  {
    assert ToldKey(0, gens, r);
  }

  lemma {:induction false} ElementsHas(s: seq<nat>, g: nat)
    ensures g in Elements(s) <==> g in s
  {
    if s != [] {
      ElementsHas(s[..|s| - 1], g);
      assert s == s[..|s| - 1] + [s[|s| - 1]];
    }
  }

  lemma GensOfRoot(r: Root)
    ensures AllGens(KeptOf(r)) == GensIn(Refs(r)) && GensOf(KeptOf(r)) == GenSet(r)
  {
    var fs, gens := Refs(r), GensIn(Refs(r));
    assert AllGens(KeptOf(r)) == gens;
    forall g ensures g in GensOf(KeptOf(r)) <==> g in GenSet(r) {
      ElementsHas(gens, g);
      if g in gens {
        var i :| 0 <= i < |gens| && gens[i] == g;
        assert fs[i] in fs && fs[i].gen == g;
      }
      if g in GenSet(r) {
        var f :| f in fs && f.gen == g;
        var i :| 0 <= i < |fs| && fs[i] == f;
        assert gens[i] == g;
      }
    }
  }

  lemma {:induction false} SpaceSame(truth: map<nat, Contents>, log: seq<Event>, fs: seq<Ref>)
    requires forall g <- truth :: truth[g] == Latest(log, g)
    requires forall f <- fs | f.gen !in Lost(log) :: f.gen in truth
    ensures RefSpace(truth, Lost(log), fs) == GensSpace(log, GensIn(fs))
  {
    if fs != [] {
      var k := |fs| - 1;
      assert forall f <- fs[..k] :: f in fs;
      assert fs[k] in fs;
      SpaceSame(truth, log, fs[..k]);
      assert GensIn(fs)[..k] == GensIn(fs[..k]);
    }
  }

  lemma PinnedSame(pins: seq<Pin>, name: string)
    ensures Pinned(PinGens(pins), name) <==> exists p <- pins :: p.name == name
  {
    if p :| p in pins && p.name == name {
      var i :| 0 <= i < |pins| && pins[i] == p;
      assert PinGens(pins)[i] in PinGens(pins) && PinGens(pins)[i].name == name;
    }
    if h :| h in PinGens(pins) && h.name == name {
      var i :| 0 <= i < |pins| && PinGens(pins)[i] == h;
      assert pins[i] in pins && pins[i].name == name;
    }
  }

  lemma {:induction false} WithoutSame(pins: seq<Pin>, name: string)
    ensures PinGens(WithoutPin(pins, name)) == WithoutHeld(PinGens(pins), name)
  {
    if pins != [] {
      WithoutSame(pins[1..], name);
      assert PinGens(pins)[1..] == PinGens(pins[1..]);
    }
  }

  lemma HistSame(cfg: Config, cur: Root, curBlk: nat, prune: bool)
    requires cur.retain >= RETAIN_MIN
    ensures var hist := NewHist(cfg, cur, curBlk, KeepCount(prune, cur.retain));
            GensIn(hist) == if prune then [cur.gen] else First([cur.gen] + GensIn(cur.hist), cur.retain - 1)
  {
    var hist := NewHist(cfg, cur, curBlk, KeepCount(prune, cur.retain));
    var gens := if prune then [cur.gen] else First([cur.gen] + GensIn(cur.hist), cur.retain - 1);
    assert |hist| == |gens|;
    assert forall i | 0 <= i < |gens| :: hist[i].gen == gens[i];
  }

  /** The generation that a commit writes retains what the client expects. */
  lemma NextSame(cfg: Config, cur: Root, curBlk: nat, work: Root, bootId: nat, text: string, c: Client)
    requires c.cur == Some(cur.gen) && Told(c.gens, c.retain, cur) && PinsTold(work.pins, c.pins)
    requires work.retain == cur.retain >= RETAIN_MIN
    ensures var w := NewRoot(cfg, cur, curBlk, work, bootId, text, KeepCount(c.prune, cur.retain));
            Told(c.gens[w.gen := Next(c)], c.retain, w)
  {
    assert ToldKey(0, c.gens, cur) && PinsKey(0, work.pins, c.pins);
    HistSame(cfg, cur, curBlk, c.prune);
  }
}
