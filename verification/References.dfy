/** Who holds a reference to which kernel object, and what the reference counts say about it. */
module References {
  import opened Common
  import opened Handles

  const QUEUE: nat := 8

  const MAPS: nat := 8

  const RIGHTS_ALL: set<nat> := {0, 1, 2, 3, 4, 5, 6, 7, 8, 9}

  /** A message with, perhaps, an object that goes along. */
  datatype Msg = Msg(data: seq<Byte>, sender: nat, obj: Option<nat>, rights: set<nat>)

  /** A kernel object; its identity is its place in a pool, so it comes back after a destruction. */
  datatype Object =
    | Vmo(refs: nat, pages: seq<nat>)
    | Endpoint(refs: nat, queue: seq<Msg>)
    | Task(refs: nat)
    | Static(refs: nat, kind: nat)

  /** What keeps an object: a slot of a handle table, a mapping, the no-th message of an endpoint, a task's
      not having been reaped, or some other part of the kernel. */
  datatype Holder =
    | Handle(task: nat, slot: nat)
    | Mapped(task: nat, slot: nat)
    | Queued(ep: nat, no: nat)
    | Alive(task: nat)
    | Kept(no: nat)

  /** The kernel's objects, handle tables, mappings and free pages; and, for the proof, the holders, how many
      messages each endpoint has given out, the rights the kernel itself has given out to each object, and
      how often each slot has been closed or moved. */
  datatype World = World(objs: map<nat, Object>, tables: map<nat, seq<Entry>>, maps: map<nat, seq<Option<nat>>>,
                         free: set<nat>, holders: map<Holder, nat>, popped: map<nat, nat>, issued: map<nat, set<nat>>,
                         bumps: map<nat, seq<nat>>)

  // ---- the invariant ----

  function MsgAt(w: World, e: nat, k: nat): Option<Msg> {
    if e in w.objs && w.objs[e].Endpoint? && e in w.popped && w.popped[e] <= k < w.popped[e] + |w.objs[e].queue|
    then Some(w.objs[e].queue[k - w.popped[e]]) else None
  }

  /** The object that stands under a holder. */
  function Found(w: World, h: Holder): Option<nat> {
    match h
    case Handle(t, i) => if t in w.tables && i < |w.tables[t]| then w.tables[t][i].obj else None
    case Mapped(t, i) => if t in w.maps && i < |w.maps[t]| then w.maps[t][i] else None
    case Queued(e, k) => if MsgAt(w, e, k).Some? then MsgAt(w, e, k).value.obj else None
    case Alive(_) => if h in w.holders then Some(w.holders[h]) else None
    case Kept(_) => if h in w.holders then Some(w.holders[h]) else None
  }

  function RightsAt(w: World, h: Holder): set<nat> {
    match h
    case Handle(t, i) => if Found(w, h).Some? then w.tables[t][i].rights else {}
    case Queued(e, k) => if MsgAt(w, e, k).Some? then MsgAt(w, e, k).value.rights else {}
    case _ => {}
  }

  /** The holders are what the tables, mappings and queues show. */
  ghost predicate Tied(w: World) {
    forall h {:trigger Found(w, h)} :: Found(w, h) == if h in w.holders then Some(w.holders[h]) else None
  }

  ghost function RefsOf(holders: map<Holder, nat>, o: nat): set<Holder> {
    set h | h in holders && holders[h] == o
  }

  /** Each count is the number of holders, and of references in `extra` that are on their way out. */
  ghost predicate Counts(w: World, extra: multiset<nat>) {
    && (forall h | h in w.holders :: w.holders[h] in w.objs)
    && (forall o | o in extra :: o in w.objs)
    && (forall o | o in w.objs :: w.objs[o].refs == |RefsOf(w.holders, o)| + extra[o])
    && (forall o | o in w.objs :: w.objs[o].Static? || w.objs[o].refs > 0)
  }

  ghost predicate CountKey(k: nat, w: World, extra: multiset<nat>) {
    true
  }

  /** The same behind a key. */
  ghost predicate Counted(w: World, extra: multiset<nat>) {
    forall k {:trigger CountKey(k, w, extra)} :: CountKey(k, w, extra) ==> Counts(w, extra)
  }

  lemma OpenCounts(w: World, extra: multiset<nat>)
    requires Inv(w, extra)
    ensures Counts(w, extra)
  {
    assert InvKey(1, w, extra) && CountKey(0, w, extra);
  }

  predicate Idle(table: seq<Entry>, maps: seq<Option<nat>>) {
    (forall i | 0 <= i < |table| :: table[i].obj.None?) && (forall i | 0 <= i < |maps| :: maps[i].None?)
  }

  ghost predicate TaskOk(w: World, t: nat) {
    && t in w.objs && w.objs[t].Task? && t in w.maps && t in w.bumps && t in w.tables
    && TableOk(w.tables[t]) && |w.maps[t]| == MAPS && |w.bumps[t]| == SLOTS
    && (forall i | 0 <= i < SLOTS :: w.tables[t][i].gen == GenOf(w.bumps[t][i]))
    && (Alive(t) in w.holders || Idle(w.tables[t], w.maps[t]))
  }

  ghost predicate TasksOk(w: World) {
    && w.maps.Keys == w.tables.Keys && w.bumps.Keys == w.tables.Keys
    && (forall t | t in w.tables :: TaskOk(w, t))
    && (forall t | t in w.objs && w.objs[t].Task? :: t in w.tables)
    && (forall t | Alive(t) in w.holders :: w.holders[Alive(t)] == t && t in w.tables)
  }

  predicate Transferable(w: World, o: nat) {
    o in w.objs && (w.objs[o].Vmo? || w.objs[o].Task?)
  }

  /** Queues are bounded and carry memory objects and tasks only; mappings are of memory objects. */
  ghost predicate KindsOk(w: World) {
    && (forall e | e in w.objs && w.objs[e].Endpoint? :: e in w.popped && |w.objs[e].queue| <= QUEUE)
    && (forall e, k | Queued(e, k) in w.holders :: Transferable(w, w.holders[Queued(e, k)]))
    && (forall t, i | Mapped(t, i) in w.holders ::
          w.holders[Mapped(t, i)] in w.objs && w.objs[w.holders[Mapped(t, i)]].Vmo?)
  }

  /** No handle and no message has a right to its object that the kernel has not given out. */
  ghost predicate RightsOk(w: World) {
    && w.issued.Keys == w.objs.Keys && (forall o | o in w.issued :: w.issued[o] <= RIGHTS_ALL)
    && (forall h | h in w.holders && w.holders[h] in w.issued :: RightsAt(w, h) <= w.issued[w.holders[h]])
  }

  predicate HasPage(objs: map<nat, Object>, o: nat, i: nat, p: nat) {
    o in objs && objs[o].Vmo? && i < |objs[o].pages| && objs[o].pages[i] == p
  }

  /** The pages of the memory objects are distinct, and none is free. */
  ghost predicate PagesOk(w: World) {
    && (forall o, i, p | HasPage(w.objs, o, i, p) :: p !in w.free)
    && (forall o, i, o', i', p | HasPage(w.objs, o, i, p) && HasPage(w.objs, o', i', p) :: o == o' && i == i')
  }

  ghost predicate InvKey(k: nat, w: World, extra: multiset<nat>) {
    true
  }

  ghost predicate Part(k: nat, w: World, extra: multiset<nat>) {
    match k
    case 0 => Tied(w)
    case 1 => Counted(w, extra)
    case 2 => TasksOk(w)
    case 3 => KindsOk(w)
    case 4 => RightsOk(w)
    case _ => PagesOk(w)
  }

  /** Everything together; each part is used by asking for its number. */
  ghost predicate Inv(w: World, extra: multiset<nat>) {
    forall k {:trigger InvKey(k, w, extra)} :: InvKey(k, w, extra) ==> Part(k, w, extra)
  }

  /** No page of a memory object that is mapped somewhere is free, and nobody else has it. */
  lemma MappedStays(w: World, t: nat, i: nat, o: nat)
    requires Inv(w, multiset{}) && t in w.maps && i < |w.maps[t]| && w.maps[t][i] == Some(o)
    ensures o in w.objs && w.objs[o].Vmo? && w.objs[o].refs > 0 && forall p <- w.objs[o].pages :: p !in w.free
  {
    assert InvKey(0, w, multiset{}) && InvKey(3, w, multiset{}) && InvKey(5, w, multiset{});
    OpenCounts(w, multiset{});
    assert Found(w, Mapped(t, i)) == Some(o);
    forall p <- w.objs[o].pages ensures p !in w.free {
      var j :| 0 <= j < |w.objs[o].pages| && w.objs[o].pages[j] == p;
      assert HasPage(w.objs, o, j, p);
    }
  }

  // ---- counting ----

  lemma RefsJoin(holders: map<Holder, nat>, h: Holder, o: nat)
    requires h !in holders
    ensures |RefsOf(holders[h := o], o)| == |RefsOf(holders, o)| + 1
    ensures forall x | x != o :: RefsOf(holders[h := o], x) == RefsOf(holders, x)
  {
    assert RefsOf(holders[h := o], o) == RefsOf(holders, o) + {h};
  }

  lemma RefsLeave(holders: map<Holder, nat>, h: Holder)
    requires h in holders
    ensures |RefsOf(holders - {h}, holders[h])| + 1 == |RefsOf(holders, holders[h])|
    ensures forall x | x != holders[h] :: RefsOf(holders - {h}, x) == RefsOf(holders, x)
  {
    assert RefsOf(holders, holders[h]) == RefsOf(holders - {h}, holders[h]) + {h};
  }

  lemma NoRefs(holders: map<Holder, nat>, o: nat, h: Holder)
    requires RefsOf(holders, o) == {} && h in holders
    ensures holders[h] != o
  {
    assert h !in RefsOf(holders, o);
  }

  function Refs(o: Object, n: nat): Object {
    o.(refs := n)
  }

  function AddRef(objs: map<nat, Object>, o: nat): map<nat, Object>
    requires o in objs
  {
    objs[o := Refs(objs[o], objs[o].refs + 1)]
  }

  // ---- what one change leaves alone ----

  predicate SameKind(x: Object, y: Object) {
    && (x.Vmo? ==> y.Vmo? && y.pages == x.pages) && (x.Endpoint? ==> y.Endpoint?) && (x.Task? ==> y.Task?)
    && (x.Static? ==> y.Static? && y.kind == x.kind)
  }

  /** The same objects, of the same kinds. */
  ghost predicate SameKinds(w: World, w': World) {
    w'.objs.Keys == w.objs.Keys && forall o | o in w.objs :: SameKind(w.objs[o], w'.objs[o])
  }

  ghost predicate Look(h: Holder) {
    true
  }

  /** Only what stands under h has changed (used by looking at a holder). */
  ghost predicate OnlyAt(w: World, w': World, h: Holder) {
    forall g {:trigger Look(g)} | Look(g) && g != h ::
      && Found(w', g) == Found(w, g) && RightsAt(w', g) == RightsAt(w, g)
      && (g in w'.holders <==> g in w.holders) && (g in w.holders ==> w'.holders[g] == w.holders[g])
  }

  lemma TiedStep(w: World, w': World, h: Holder)
    requires Tied(w) && OnlyAt(w, w', h) && Found(w', h) == if h in w'.holders then Some(w'.holders[h]) else None
    ensures Tied(w')
  {
    forall g ensures Found(w', g) == if g in w'.holders then Some(w'.holders[g]) else None {
      assert Look(g) && Found(w, g) == if g in w.holders then Some(w.holders[g]) else None;
    }
  }

  lemma KindsStep(w: World, w': World, h: Holder)
    requires KindsOk(w) && SameKinds(w, w') && OnlyAt(w, w', h) && w'.popped.Keys == w.popped.Keys
    requires forall e | e in w'.objs && w'.objs[e].Endpoint? :: |w'.objs[e].queue| <= QUEUE
    requires h in w'.holders && h.Queued? ==> Transferable(w, w'.holders[h])
    requires h in w'.holders && h.Mapped? ==> w'.holders[h] in w.objs && w.objs[w'.holders[h]].Vmo?
    ensures KindsOk(w')
  {
    forall e | e in w'.objs && w'.objs[e].Endpoint? ensures e in w'.popped {
      assert SameKind(w.objs[e], w'.objs[e]);
    }
    forall e, k | Queued(e, k) in w'.holders ensures Transferable(w', w'.holders[Queued(e, k)]) {
      assert Look(Queued(e, k));
      assert Transferable(w, w'.holders[Queued(e, k)]);
    }
    forall t, i | Mapped(t, i) in w'.holders
      ensures w'.holders[Mapped(t, i)] in w'.objs && w'.objs[w'.holders[Mapped(t, i)]].Vmo?
    {
      assert Look(Mapped(t, i));
      assert w.objs[w'.holders[Mapped(t, i)]].Vmo?;
    }
  }

  lemma RightsStep(w: World, w': World, h: Holder)
    requires RightsOk(w) && OnlyAt(w, w', h) && w'.objs.Keys == w.objs.Keys && w'.issued.Keys == w.issued.Keys
    requires forall o | o in w.issued :: w.issued[o] <= w'.issued[o] <= RIGHTS_ALL
    requires h in w'.holders && w'.holders[h] in w'.issued ==> RightsAt(w', h) <= w'.issued[w'.holders[h]]
    ensures RightsOk(w')
  {
    forall g | g in w'.holders && w'.holders[g] in w'.issued ensures RightsAt(w', g) <= w'.issued[w'.holders[g]] {
      assert Look(g);
    }
  }

  /** The pages of the objects that remain. */
  lemma PagesStep(w: World, w': World)
    requires PagesOk(w) && w'.free <= w.free && w'.objs.Keys <= w.objs.Keys
    requires forall o | o in w'.objs :: w'.objs[o].Vmo? ==> w.objs[o].Vmo? && w'.objs[o].pages == w.objs[o].pages
    ensures PagesOk(w')
  {
    forall o, i, p | HasPage(w'.objs, o, i, p) ensures HasPage(w.objs, o, i, p) {
    }
  }

  lemma KindPages(w: World, w': World)
    requires PagesOk(w) && w'.free <= w.free && SameKinds(w, w')
    ensures PagesOk(w')
  {
    forall o | o in w'.objs ensures w'.objs[o].Vmo? ==> w.objs[o].Vmo? && w'.objs[o].pages == w.objs[o].pages {
      assert SameKind(w.objs[o], w'.objs[o]);
    }
    PagesStep(w, w');
  }

  /** Tasks whose table, mappings and life have not changed. */
  lemma TaskSame(w: World, w': World, t: nat)
    requires TaskOk(w, t) && t in w'.objs && w'.objs[t].Task? && t in w'.tables && t in w'.maps && t in w'.bumps
    requires w'.tables[t] == w.tables[t] && w'.maps[t] == w.maps[t] && w'.bumps[t] == w.bumps[t]
    requires Alive(t) in w'.holders <==> Alive(t) in w.holders
    ensures TaskOk(w', t)
  {
  }

  lemma TasksStep(w: World, w': World, h: Holder, t: nat)
    requires TasksOk(w) && SameKinds(w, w') && OnlyAt(w, w', h) && !h.Alive?
    requires w'.tables.Keys == w.tables.Keys == w'.maps.Keys == w'.bumps.Keys
    requires forall s | s in w.tables && s != t ::
               w'.tables[s] == w.tables[s] && w'.maps[s] == w.maps[s] && w'.bumps[s] == w.bumps[s]
    requires t in w'.tables ==> TaskOk(w', t)
    ensures TasksOk(w')
  {
    forall s | s in w'.tables ensures TaskOk(w', s) {
      assert TaskOk(w, s) && SameKind(w.objs[s], w'.objs[s]) && Look(Alive(s));
      if s != t {
        TaskSame(w, w', s);
      }
    }
    forall s | s in w'.objs && w'.objs[s].Task? ensures s in w'.tables {
      assert SameKind(w.objs[s], w'.objs[s]);
    }
    forall s | Alive(s) in w'.holders ensures w'.holders[Alive(s)] == s && s in w'.tables {
      assert Look(Alive(s));
    }
  }

  /** A change under one holder that keeps the objects and every task but t. */
  lemma Step(w: World, w': World, h: Holder, t: nat, extra: multiset<nat>, extra': multiset<nat>)
    requires Inv(w, extra) && Counted(w', extra') && SameKinds(w, w') && OnlyAt(w, w', h) && !h.Alive?
    requires Found(w', h) == if h in w'.holders then Some(w'.holders[h]) else None
    requires w'.popped.Keys == w.popped.Keys
    requires forall e | e in w'.objs && w'.objs[e].Endpoint? :: |w'.objs[e].queue| <= QUEUE
    requires h in w'.holders && h.Queued? ==> Transferable(w, w'.holders[h])
    requires h in w'.holders && h.Mapped? ==> w'.holders[h] in w.objs && w.objs[w'.holders[h]].Vmo?
    requires w'.issued.Keys == w.issued.Keys
    requires forall o | o in w.issued ::
               w.issued[o] <= w'.issued[o] && (w'.issued[o] == w.issued[o] || w'.issued[o] <= RIGHTS_ALL)
    requires h in w'.holders && w'.holders[h] in w'.issued ==> RightsAt(w', h) <= w'.issued[w'.holders[h]]
    requires w'.tables.Keys == w.tables.Keys == w'.maps.Keys == w'.bumps.Keys
    requires forall s | s in w.tables && s in w.maps && s in w.bumps && s != t ::
               w'.tables[s] == w.tables[s] && w'.maps[s] == w.maps[s] && w'.bumps[s] == w.bumps[s]
    requires (t in w'.tables ==> TaskOk(w', t)) && w'.free <= w.free
    ensures Inv(w', extra')
  {
    forall k | InvKey(k, w', extra') ensures Part(k, w', extra') {
      assert InvKey(k, w, extra);
      match k {
        case 0 => TiedStep(w, w', h);
        case 1 =>
        case 2 => TasksStep(w, w', h, t);
        case 3 => KindsStep(w, w', h);
        case 4 => RightsStep(w, w', h);
        case _ => KindPages(w, w');
      }
    }
  }

  lemma TheTask(w: World, extra: multiset<nat>, t: nat)
    requires Inv(w, extra) && t in w.tables
    ensures TaskOk(w, t)
  {
    assert InvKey(2, w, extra);
  }

  lemma TheKeys(w: World, extra: multiset<nat>)
    requires Inv(w, extra)
    ensures w.maps.Keys == w.tables.Keys == w.bumps.Keys && w.issued.Keys == w.objs.Keys
    ensures (forall o | o in w.issued :: w.issued[o] <= RIGHTS_ALL)
    ensures forall e | e in w.objs && w.objs[e].Endpoint? :: e in w.popped && |w.objs[e].queue| <= QUEUE
  {
    assert InvKey(2, w, extra) && InvKey(3, w, extra) && InvKey(4, w, extra);
  }

  lemma TheObject(w: World, extra: multiset<nat>, h: Holder)
    requires Inv(w, extra) && Found(w, h).Some?
    ensures h in w.holders && w.holders[h] == Found(w, h).value && Found(w, h).value in w.objs
    ensures Found(w, h).value in w.issued && RightsAt(w, h) <= w.issued[Found(w, h).value]
    ensures h.Queued? ==> Transferable(w, Found(w, h).value)
    ensures h.Mapped? ==> w.objs[Found(w, h).value].Vmo?
  {
    assert InvKey(0, w, extra) && InvKey(3, w, extra) && InvKey(4, w, extra);
    OpenCounts(w, extra);
  }

  lemma NoHolder(w: World, extra: multiset<nat>, h: Holder)
    requires Inv(w, extra) && Found(w, h) == None
    ensures h !in w.holders
  {
    assert InvKey(0, w, extra);
  }

  /** A new holder with a new reference. */
  lemma CountedJoin(w: World, w': World, extra: multiset<nat>, h: Holder, o: nat)
    requires Inv(w, extra) && h !in w.holders && o in w.objs && w'.holders == w.holders[h := o]
    requires w'.objs == AddRef(w.objs, o)
    ensures Counted(w', extra)
  {
    OpenCounts(w, extra);
    RefsJoin(w.holders, h, o);
  }

  /** The same references. */
  ghost predicate SameRefs(w: World, w': World) {
    && w'.objs.Keys == w.objs.Keys
    && forall o | o in w.objs :: SameKind(w.objs[o], w'.objs[o]) && w'.objs[o].refs == w.objs[o].refs
  }

  /** A new holder for a reference that was on its way. */
  lemma CountedTake(w: World, w': World, extra: multiset<nat>, h: Holder, o: nat)
    requires Inv(w, extra) && h !in w.holders && o in extra && w'.holders == w.holders[h := o] && SameRefs(w, w')
    ensures Counted(w', extra - multiset{o})
  {
    OpenCounts(w, extra);
    RefsJoin(w.holders, h, o);
    forall x | x in w'.objs
      ensures w'.objs[x].refs == |RefsOf(w'.holders, x)| + (extra - multiset{o})[x]
      ensures w'.objs[x].Static? || w'.objs[x].refs > 0
    {
      assert SameKind(w.objs[x], w'.objs[x]);
    }
  }

  /** A holder lets go. */
  lemma CountedLeave(w: World, w': World, extra: multiset<nat>, h: Holder)
    requires Inv(w, extra) && h in w.holders && w'.holders == w.holders - {h} && SameRefs(w, w')
    ensures Counted(w', extra + multiset{w.holders[h]})
  {
    OpenCounts(w, extra);
    RefsLeave(w.holders, h);
    var o := w.holders[h];
    forall x | x in w'.objs
      ensures w'.objs[x].refs == |RefsOf(w'.holders, x)| + (extra + multiset{o})[x]
      ensures w'.objs[x].Static? || w'.objs[x].refs > 0
    {
      assert SameKind(w.objs[x], w'.objs[x]);
    }
  }

  // ---- one reference more ----

  /** A free slot gets the object; the kernel gives out `given`. */
  function Installed(w: World, t: nat, i: nat, o: nat, rights: set<nat>, given: set<nat>): World
    requires o in w.objs && t in w.tables && i < |w.tables[t]| && o in w.issued
  {
    w.(objs := AddRef(w.objs, o),
       tables := w.tables[t := w.tables[t][i := w.tables[t][i].(obj := Some(o), rights := rights)]],
       holders := w.holders[Handle(t, i) := o], issued := w.issued[o := w.issued[o] + given])
  }

  lemma InstallFound(w: World, t: nat, i: nat, o: nat, rights: set<nat>, given: set<nat>, g: Holder)
    requires o in w.objs && t in w.tables && i < |w.tables[t]| && o in w.issued && g != Handle(t, i)
    ensures Found(Installed(w, t, i, o, rights, given), g) == Found(w, g)
    ensures RightsAt(Installed(w, t, i, o, rights, given), g) == RightsAt(w, g)
  {
  }

  lemma InstallOnly(w: World, t: nat, i: nat, o: nat, rights: set<nat>, given: set<nat>)
    requires o in w.objs && t in w.tables && i < |w.tables[t]| && o in w.issued
    ensures OnlyAt(w, Installed(w, t, i, o, rights, given), Handle(t, i))
    ensures SameKinds(w, Installed(w, t, i, o, rights, given))
  {
    forall g | Look(g) && g != Handle(t, i)
      ensures Found(Installed(w, t, i, o, rights, given), g) == Found(w, g)
      ensures RightsAt(Installed(w, t, i, o, rights, given), g) == RightsAt(w, g)
    {
      InstallFound(w, t, i, o, rights, given, g);
    }
  }

  lemma InstallTask(w: World, t: nat, i: nat, o: nat, rights: set<nat>, given: set<nat>)
    requires TaskOk(w, t) && Alive(t) in w.holders && o in w.objs && i < SLOTS && o in w.issued
    ensures TaskOk(Installed(w, t, i, o, rights, given), t)
  {
  }

  lemma InstallKeeps(w: World, extra: multiset<nat>, t: nat, i: nat, o: nat, rights: set<nat>, given: set<nat>)
    requires Inv(w, extra) && o in w.objs && Alive(t) in w.holders && t in w.tables && i < |w.tables[t]|
    requires w.tables[t][i].obj.None?
    requires o in w.issued && rights <= w.issued[o] + given && given <= RIGHTS_ALL
    ensures Inv(Installed(w, t, i, o, rights, given), extra)
  {
    var w', h := Installed(w, t, i, o, rights, given), Handle(t, i);
    TheTask(w, extra, t);
    TheKeys(w, extra);
    NoHolder(w, extra, h);
    InstallOnly(w, t, i, o, rights, given);
    InstallTask(w, t, i, o, rights, given);
    CountedJoin(w, w', extra, h, o);
    Step(w, w', h, t, extra, extra);
  }

  /** A mapping. */
  function MapAdded(w: World, t: nat, i: nat, o: nat): World
    requires o in w.objs && t in w.maps && i < |w.maps[t]|
  {
    w.(objs := AddRef(w.objs, o), maps := w.maps[t := w.maps[t][i := Some(o)]], holders := w.holders[Mapped(t, i) := o])
  }

  lemma MapFound(w: World, t: nat, i: nat, o: nat, g: Holder)
    requires o in w.objs && t in w.maps && i < |w.maps[t]| && g != Mapped(t, i)
    ensures Found(MapAdded(w, t, i, o), g) == Found(w, g) && RightsAt(MapAdded(w, t, i, o), g) == RightsAt(w, g)
  {
  }

  lemma MapOnly(w: World, t: nat, i: nat, o: nat)
    requires o in w.objs && t in w.maps && i < |w.maps[t]|
    ensures OnlyAt(w, MapAdded(w, t, i, o), Mapped(t, i)) && SameKinds(w, MapAdded(w, t, i, o))
  {
    forall g | Look(g) && g != Mapped(t, i)
      ensures Found(MapAdded(w, t, i, o), g) == Found(w, g) && RightsAt(MapAdded(w, t, i, o), g) == RightsAt(w, g)
    {
      MapFound(w, t, i, o, g);
    }
  }

  lemma MapKeeps(w: World, t: nat, i: nat, o: nat)
    requires Inv(w, multiset{}) && o in w.objs && w.objs[o].Vmo? && Alive(t) in w.holders && t in w.maps
    requires i < |w.maps[t]| && w.maps[t][i].None?
    ensures Inv(MapAdded(w, t, i, o), multiset{})
  {
    var w', h := MapAdded(w, t, i, o), Mapped(t, i);
    TheKeys(w, multiset{});
    TheTask(w, multiset{}, t);
    NoHolder(w, multiset{}, h);
    MapOnly(w, t, i, o);
    CountedJoin(w, w', multiset{}, h, o);
    Step(w, w', h, t, multiset{}, multiset{});
  }

  /** Only a reference of the kernel itself, or a count, has changed. */
  lemma Undisturbed(w: World, w': World, h: Holder, extra: multiset<nat>, extra': multiset<nat>)
    requires Inv(w, extra) && Counted(w', extra') && SameKinds(w, w') && h.Kept?
    requires forall e | e in w.objs && w.objs[e].Endpoint? && e in w'.objs && w'.objs[e].Endpoint? ::
               w'.objs[e].queue == w.objs[e].queue
    requires w' == w.(objs := w'.objs, holders := w'.holders) && w'.holders.Keys - {h} == w.holders.Keys - {h}
    requires forall g | g in w.holders && g in w'.holders && g != h :: w'.holders[g] == w.holders[g]
    ensures Inv(w', extra')
  {
    TheKeys(w, extra);
    UndisturbedOnly(w, w', h);
    forall k | InvKey(k, w', extra') ensures Part(k, w', extra') {
      assert InvKey(k, w, extra);
      match k {
        case 0 => TiedStep(w, w', h);
        case 1 =>
        case 2 =>
          forall t | t in w'.tables ensures TaskOk(w', t) {
            assert TaskOk(w, t) && SameKind(w.objs[t], w'.objs[t]) && Look(Alive(t));
            TaskSame(w, w', t);
          }
          TasksStep(w, w', h, 0);
        case 3 => KindsStep(w, w', h);
        case 4 => RightsStep(w, w', h);
        case _ => KindPages(w, w');
      }
    }
  }

  lemma UndisturbedOnly(w: World, w': World, h: Holder)
    requires SameKinds(w, w') && h.Kept? && w' == w.(objs := w'.objs, holders := w'.holders)
    requires w'.holders.Keys - {h} == w.holders.Keys - {h}
    requires forall e | e in w.objs && w.objs[e].Endpoint? && e in w'.objs && w'.objs[e].Endpoint? ::
               w'.objs[e].queue == w.objs[e].queue
    requires forall g | g in w.holders && g in w'.holders && g != h :: w'.holders[g] == w.holders[g]
    ensures OnlyAt(w, w', h)
  {
    forall g | Look(g) && g != h
      ensures (g in w'.holders <==> g in w.holders) && Found(w', g) == Found(w, g) && RightsAt(w', g) == RightsAt(w, g)
    {
      assert g in w'.holders <==> g in w'.holders.Keys - {h};
      assert g in w.holders <==> g in w.holders.Keys - {h};
      if g.Queued? && g.ep in w.objs {
        assert SameKind(w.objs[g.ep], w'.objs[g.ep]);
      }
    }
  }

  // ---- references on their way ----

  /** A slot is emptied and its generation moves on. */
  function Closed(w: World, t: nat, i: nat): World
    requires t in w.tables && i < |w.tables[t]| && t in w.bumps && i < |w.bumps[t]|
  {
    w.(tables := w.tables[t := w.tables[t][i := Entry(None, {}, Bump(w.tables[t][i].gen))]],
       bumps := w.bumps[t := w.bumps[t][i := w.bumps[t][i] + 1]], holders := w.holders - {Handle(t, i)})
  }

  lemma CloseOnly(w: World, t: nat, i: nat)
    requires t in w.tables && i < |w.tables[t]| && t in w.bumps && i < |w.bumps[t]|
    ensures OnlyAt(w, Closed(w, t, i), Handle(t, i)) && SameKinds(w, Closed(w, t, i)) && SameRefs(w, Closed(w, t, i))
  {
  }

  lemma CloseTask(w: World, t: nat, i: nat)
    requires TaskOk(w, t) && i < SLOTS
    ensures TaskOk(Closed(w, t, i), t)
  {
    BumpGen(w.bumps[t][i]);
  }

  lemma CloseKeeps(w: World, extra: multiset<nat>, t: nat, i: nat, o: nat)
    requires Inv(w, extra) && t in w.tables && i < |w.tables[t]| && w.tables[t][i].obj == Some(o) && t in w.bumps
    requires i < |w.bumps[t]|
    ensures Inv(Closed(w, t, i), extra + multiset{o})
  {
    var w', h := Closed(w, t, i), Handle(t, i);
    TheTask(w, extra, t);
    TheKeys(w, extra);
    TheObject(w, extra, h);
    CloseOnly(w, t, i);
    CloseTask(w, t, i);
    CountedLeave(w, w', extra, h);
    Step(w, w', h, t, extra, extra + multiset{o});
  }

  function MapDropped(w: World, t: nat, i: nat): World
    requires t in w.maps && i < |w.maps[t]|
  {
    w.(maps := w.maps[t := w.maps[t][i := None]], holders := w.holders - {Mapped(t, i)})
  }

  lemma UnmapOnly(w: World, t: nat, i: nat)
    requires t in w.maps && i < |w.maps[t]|
    ensures var w' := MapDropped(w, t, i); OnlyAt(w, w', Mapped(t, i)) && SameRefs(w, w') && SameKinds(w, w')
  {
  }

  lemma UnmapKeeps(w: World, extra: multiset<nat>, t: nat, i: nat, o: nat)
    requires Inv(w, extra) && t in w.maps && i < |w.maps[t]| && w.maps[t][i] == Some(o)
    ensures Inv(MapDropped(w, t, i), extra + multiset{o})
  {
    var w', h := MapDropped(w, t, i), Mapped(t, i);
    TheKeys(w, extra);
    TheTask(w, extra, t);
    TheObject(w, extra, h);
    UnmapOnly(w, t, i);
    CountedLeave(w, w', extra, h);
    Step(w, w', h, t, extra, extra + multiset{o});
  }

  lemma UnkeepKeeps(w: World, extra: multiset<nat>, n: nat)
    requires Inv(w, extra) && Kept(n) in w.holders
    ensures Inv(w.(holders := w.holders - {Kept(n)}), extra + multiset{w.holders[Kept(n)]})
  {
    var w', h := w.(holders := w.holders - {Kept(n)}), Kept(n);
    assert SameRefs(w, w') && SameKinds(w, w');
    CountedLeave(w, w', extra, h);
    Undisturbed(w, w', h, extra, extra + multiset{w.holders[h]});
  }

  // ---- messages ----

  /** A message joins a queue; a reference that was on its way goes with it. */
  function Pushed(w: World, e: nat, m: Msg): World
    requires e in w.objs && w.objs[e].Endpoint? && e in w.popped
  {
    var k := w.popped[e] + |w.objs[e].queue|;
    w.(objs := w.objs[e := w.objs[e].(queue := w.objs[e].queue + [m])],
       holders := if m.obj.Some? then w.holders[Queued(e, k) := m.obj.value] else w.holders)
  }

  lemma PushFound(w: World, e: nat, m: Msg, g: Holder)
    requires e in w.objs && w.objs[e].Endpoint? && e in w.popped && g != Queued(e, w.popped[e] + |w.objs[e].queue|)
    ensures Found(Pushed(w, e, m), g) == Found(w, g) && RightsAt(Pushed(w, e, m), g) == RightsAt(w, g)
  {
  }

  lemma PushOnly(w: World, e: nat, m: Msg)
    requires e in w.objs && w.objs[e].Endpoint? && e in w.popped
    ensures var h := Queued(e, w.popped[e] + |w.objs[e].queue|);
            && OnlyAt(w, Pushed(w, e, m), h) && SameKinds(w, Pushed(w, e, m)) && SameRefs(w, Pushed(w, e, m))
            && Found(w, h) == None && Found(Pushed(w, e, m), h) == m.obj
            && (m.obj.Some? ==> RightsAt(Pushed(w, e, m), h) == m.rights)
  {
    forall g | Look(g) && g != Queued(e, w.popped[e] + |w.objs[e].queue|)
      ensures Found(Pushed(w, e, m), g) == Found(w, g) && RightsAt(Pushed(w, e, m), g) == RightsAt(w, g)
    {
      PushFound(w, e, m, g);
    }
  }

  ghost function Going(m: Msg): multiset<nat> {
    if m.obj.Some? then multiset{m.obj.value} else multiset{}
  }

  lemma PushKeeps(w: World, e: nat, m: Msg)
    requires Inv(w, Going(m)) && e in w.objs && w.objs[e].Endpoint? && e in w.popped && |w.objs[e].queue| < QUEUE
    requires m.obj.Some? ==>
               Transferable(w, m.obj.value) && m.obj.value in w.issued && m.rights <= w.issued[m.obj.value]
    ensures Inv(Pushed(w, e, m), multiset{})
  {
    var w', h := Pushed(w, e, m), Queued(e, w.popped[e] + |w.objs[e].queue|);
    TheKeys(w, Going(m));
    PushOnly(w, e, m);
    NoHolder(w, Going(m), h);
    if m.obj.Some? {
      CountedTake(w, w', Going(m), h, m.obj.value);
      assert Going(m) - multiset{m.obj.value} == multiset{};
    } else {
      PushNothing(w, e, m);
    }
    QueueStep(w, w', h, Going(m), multiset{});
  }

  lemma PushNothing(w: World, e: nat, m: Msg)
    requires Inv(w, multiset{}) && e in w.objs && w.objs[e].Endpoint? && e in w.popped && m.obj.None?
    ensures Counted(Pushed(w, e, m), multiset{})
  {
    OpenCounts(w, multiset{});
  }

  /** A queue has changed; tasks, rights and pages are as they were. */
  lemma QueueStep(w: World, w': World, h: Holder, extra: multiset<nat>, extra': multiset<nat>)
    requires Inv(w, extra) && Counted(w', extra') && SameKinds(w, w') && OnlyAt(w, w', h) && h.Queued?
    requires Found(w', h) == if h in w'.holders then Some(w'.holders[h]) else None
    requires w' == w.(objs := w'.objs, holders := w'.holders, popped := w'.popped) && w'.popped.Keys == w.popped.Keys
    requires forall e | e in w'.objs && w'.objs[e].Endpoint? :: |w'.objs[e].queue| <= QUEUE
    requires h in w'.holders ==>
               Transferable(w, w'.holders[h]) && w'.holders[h] in w.issued && RightsAt(w', h) <= w.issued[w'.holders[h]]
    ensures Inv(w', extra')
  {
    TheKeys(w, extra);
    forall k | InvKey(k, w', extra') ensures Part(k, w', extra') {
      assert InvKey(k, w, extra);
      match k {
        case 0 => TiedStep(w, w', h);
        case 1 =>
        case 2 =>
          forall t | t in w'.tables ensures TaskOk(w', t) {
            assert TaskOk(w, t) && SameKind(w.objs[t], w'.objs[t]) && Look(Alive(t));
            TaskSame(w, w', t);
          }
          TasksStep(w, w', h, 0);
        case 3 => KindsStep(w, w', h);
        case 4 => RightsStep(w, w', h);
        case _ => KindPages(w, w');
      }
    }
  }

  /** The oldest message leaves; its reference is on its way. */
  function Popped(w: World, e: nat): World
    requires e in w.objs && w.objs[e].Endpoint? && e in w.popped && w.objs[e].queue != []
  {
    w.(objs := w.objs[e := w.objs[e].(queue := w.objs[e].queue[1..])], holders := w.holders - {Queued(e, w.popped[e])},
       popped := w.popped[e := w.popped[e] + 1])
  }

  lemma PopOnly(w: World, e: nat)
    requires e in w.objs && w.objs[e].Endpoint? && e in w.popped && w.objs[e].queue != []
    ensures OnlyAt(w, Popped(w, e), Queued(e, w.popped[e]))
  {
    var w', h := Popped(w, e), Queued(e, w.popped[e]);
    forall g | Look(g) && g != h ensures Found(w', g) == Found(w, g) && RightsAt(w', g) == RightsAt(w, g) {
      if g.Queued? {
        PopOthers(w, e, g.ep, g.no);
      }
    }
  }

  lemma PopOthers(w: World, e: nat, d: nat, k: nat)
    requires e in w.objs && w.objs[e].Endpoint? && e in w.popped && w.objs[e].queue != []
    requires (d != e || k != w.popped[e])
    ensures MsgAt(Popped(w, e), d, k) == MsgAt(w, d, k)
  {
  }

  lemma PopFirst(w: World, e: nat)
    requires e in w.objs && w.objs[e].Endpoint? && e in w.popped && w.objs[e].queue != []
    ensures var w', h := Popped(w, e), Queued(e, w.popped[e]);
            && SameKinds(w, w') && SameRefs(w, w') && Found(w', h) == None
            && Found(w, h) == w.objs[e].queue[0].obj && RightsAt(w, h) == w.objs[e].queue[0].rights
  {
  }

  lemma PopKeeps(w: World, extra: multiset<nat>, e: nat)
    requires Inv(w, extra) && e in w.objs && w.objs[e].Endpoint? && e in w.popped && w.objs[e].queue != []
    ensures Inv(Popped(w, e), extra + Going(w.objs[e].queue[0]))
  {
    var w', h, m := Popped(w, e), Queued(e, w.popped[e]), w.objs[e].queue[0];
    TheKeys(w, extra);
    PopOnly(w, e);
    PopFirst(w, e);
    if m.obj.Some? {
      TheObject(w, extra, h);
      CountedLeave(w, w', extra, h);
    } else {
      NoHolder(w, extra, h);
      assert w'.holders == w.holders;
      PopNothing(w, extra, e);
      assert extra + multiset{} == extra;
    }
    QueueStep(w, w', h, extra, extra + Going(m));
  }

  lemma PopNothing(w: World, extra: multiset<nat>, e: nat)
    requires Inv(w, extra) && e in w.objs && w.objs[e].Endpoint? && e in w.popped && w.objs[e].queue != []
    requires Queued(e, w.popped[e]) !in w.holders
    ensures Counted(Popped(w, e), extra)
  {
    OpenCounts(w, extra);
    assert Popped(w, e).holders == w.holders;
  }

  // ---- the last reference ----

  /** A reference that was on its way is counted off. */
  function Dropped(w: World, o: nat): World
    requires o in w.objs && w.objs[o].refs > 0
  {
    w.(objs := w.objs[o := Refs(w.objs[o], w.objs[o].refs - 1)])
  }

  lemma DropCounts(w: World, extra: multiset<nat>, o: nat)
    requires Inv(w, extra) && o in extra && o in w.objs
    requires (w.objs[o].refs > 1 || (w.objs[o].Static? && w.objs[o].refs > 0))
    ensures Counted(Dropped(w, o), extra - multiset{o})
  {
    OpenCounts(w, extra);
    assert Dropped(w, o).holders == w.holders;
  }

  lemma DropKeeps(w: World, extra: multiset<nat>, o: nat)
    requires Inv(w, extra) && o in extra && o in w.objs
    requires (w.objs[o].refs > 1 || (w.objs[o].Static? && w.objs[o].refs > 0))
    ensures Inv(Dropped(w, o), extra - multiset{o})
  {
    DropCounts(w, extra, o);
    Undisturbed(w, Dropped(w, o), Kept(0), extra, extra - multiset{o});
  }

  /** An object on its way out is one that is there. */
  lemma TheGoing(w: World, extra: multiset<nat>, o: nat)
    requires Inv(w, extra) && o in extra
    ensures o in w.objs && w.objs[o].refs > 0
  {
    OpenCounts(w, extra);
  }

  /** The last reference: nobody holds the object. */
  lemma NoneHold(w: World, extra: multiset<nat>, o: nat)
    requires Inv(w, extra) && o in extra && o in w.objs && w.objs[o].refs == 1
    ensures extra[o] == 1 && forall h | h in w.holders :: w.holders[h] != o
  {
    OpenCounts(w, extra);
    forall h | h in w.holders ensures w.holders[h] != o {
      assert RefsOf(w.holders, o) == {};
      NoRefs(w.holders, o, h);
    }
  }

  /** Object o and what belongs to it is gone, all else is there. */
  ghost predicate Without(w: World, w': World, o: nat) {
    && o in w.objs && w'.objs == w.objs - {o} && w'.issued == w.issued - {o} && w'.holders == w.holders
    && w'.popped == w.popped
    && forall h {:trigger Look(h)} | Look(h) :: Found(w', h) == Found(w, h) && RightsAt(w', h) == RightsAt(w, h)
  }

  lemma GoneCounts(w: World, w': World, extra: multiset<nat>, o: nat)
    requires Inv(w, extra) && o in extra && Without(w, w', o) && w.objs[o].refs == 1
    ensures Counted(w', extra - multiset{o})
  {
    OpenCounts(w, extra);
    NoneHold(w, extra, o);
  }

  lemma GoneTied(w: World, w': World, o: nat)
    requires Tied(w) && Without(w, w', o)
    ensures Tied(w')
  {
    forall h ensures Found(w', h) == if h in w'.holders then Some(w'.holders[h]) else None {
      assert Look(h) && Found(w, h) == if h in w.holders then Some(w.holders[h]) else None;
    }
  }

  lemma GoneKinds(w: World, w': World, o: nat)
    requires KindsOk(w) && Without(w, w', o) && forall h | h in w.holders :: w.holders[h] != o
    ensures KindsOk(w')
  {
    forall e, k | Queued(e, k) in w'.holders ensures Transferable(w', w'.holders[Queued(e, k)]) {
      assert Transferable(w, w.holders[Queued(e, k)]);
    }
    forall t, i | Mapped(t, i) in w'.holders
      ensures w'.holders[Mapped(t, i)] in w'.objs && w'.objs[w'.holders[Mapped(t, i)]].Vmo?
    {
      assert w.objs[w.holders[Mapped(t, i)]].Vmo?;
    }
  }

  lemma GoneRights(w: World, w': World, o: nat)
    requires RightsOk(w) && Without(w, w', o)
    ensures RightsOk(w')
  {
    forall h | h in w'.holders && w'.holders[h] in w'.issued ensures RightsAt(w', h) <= w'.issued[w'.holders[h]] {
      assert Look(h);
    }
  }

  lemma GoneKeeps(w: World, w': World, extra: multiset<nat>, o: nat)
    requires Inv(w, extra) && o in extra && Without(w, w', o) && w.objs[o].refs == 1 && TasksOk(w') && PagesOk(w')
    ensures Inv(w', extra - multiset{o})
  {
    NoneHold(w, extra, o);
    GoneCounts(w, w', extra, o);
    forall k | InvKey(k, w', extra - multiset{o}) ensures Part(k, w', extra - multiset{o}) {
      assert InvKey(k, w, extra);
      match k {
        case 0 => GoneTied(w, w', o);
        case 1 =>
        case 2 =>
        case 3 => GoneKinds(w, w', o);
        case 4 => GoneRights(w, w', o);
        case _ =>
      }
    }
  }

  lemma OtherTasks(w: World, w': World, extra: multiset<nat>, o: nat)
    requires Inv(w, extra) && Without(w, w', o) && w'.tables == w.tables - {o} && w'.maps == w.maps - {o}
    requires w'.bumps == w.bumps - {o}
    requires Alive(o) !in w.holders
    ensures TasksOk(w')
  {
    assert InvKey(2, w, extra);
    forall t | t in w'.tables ensures TaskOk(w', t) {
      assert TaskOk(w, t);
      TaskSame(w, w', t);
    }
  }

  function PageSet(pages: seq<nat>): set<nat> {
    set p | p in pages
  }

  function VmoGone(w: World, o: nat): World
    requires o in w.objs && w.objs[o].Vmo?
  {
    w.(objs := w.objs - {o}, issued := w.issued - {o}, free := w.free + PageSet(w.objs[o].pages))
  }

  lemma VmoPages(w: World, o: nat)
    requires PagesOk(w) && o in w.objs && w.objs[o].Vmo?
    ensures PagesOk(VmoGone(w, o))
  {
    var w' := VmoGone(w, o);
    forall x, i, p | HasPage(w'.objs, x, i, p) ensures HasPage(w.objs, x, i, p) && p !in w'.free {
      assert HasPage(w.objs, x, i, p);
      if p in w.objs[o].pages {
        var j :| 0 <= j < |w.objs[o].pages| && w.objs[o].pages[j] == p;
        assert HasPage(w.objs, o, j, p);
      }
    }
  }

  lemma VmoFound(w: World, o: nat, h: Holder)
    requires o in w.objs && w.objs[o].Vmo?
    ensures Found(VmoGone(w, o), h) == Found(w, h) && RightsAt(VmoGone(w, o), h) == RightsAt(w, h)
  {
  }

  lemma VmoWithout(w: World, extra: multiset<nat>, o: nat)
    requires Inv(w, extra) && o in w.objs && w.objs[o].Vmo?
    ensures Without(w, VmoGone(w, o), o) && o !in w.tables
  {
    assert InvKey(2, w, extra);
    assert o in w.tables ==> TaskOk(w, o);
    forall h | Look(h) ensures Found(VmoGone(w, o), h) == Found(w, h) && RightsAt(VmoGone(w, o), h) == RightsAt(w, h) {
      VmoFound(w, o, h);
    }
  }

  lemma VmoGoneKeeps(w: World, extra: multiset<nat>, o: nat)
    requires Inv(w, extra) && o in extra && o in w.objs && w.objs[o].Vmo? && w.objs[o].refs == 1
    ensures Inv(VmoGone(w, o), extra - multiset{o})
  {
    var w' := VmoGone(w, o);
    VmoWithout(w, extra, o);
    TheKeys(w, extra);
    assert w.tables - {o} == w.tables && w.maps - {o} == w.maps && w.bumps - {o} == w.bumps;
    NotAlive(w, extra, o);
    OtherTasks(w, w', extra, o);
    assert InvKey(5, w, extra);
    VmoPages(w, o);
    GoneKeeps(w, w', extra, o);
  }

  lemma NotAlive(w: World, extra: multiset<nat>, o: nat)
    requires Inv(w, extra) && o in extra && o in w.objs && w.objs[o].refs == 1
    ensures Alive(o) !in w.holders
  {
    NoneHold(w, extra, o);
    assert InvKey(2, w, extra);
  }

  function TaskGone(w: World, o: nat): World {
    w.(objs := w.objs - {o}, issued := w.issued - {o}, tables := w.tables - {o}, maps := w.maps - {o},
       bumps := w.bumps - {o})
  }

  lemma TaskWithout(w: World, extra: multiset<nat>, o: nat)
    requires Inv(w, extra) && o in w.objs && w.objs[o].Task? && Alive(o) !in w.holders
    ensures Without(w, TaskGone(w, o), o)
  {
    assert InvKey(2, w, extra);
    assert TaskOk(w, o);
    forall h | Look(h)
      ensures Found(TaskGone(w, o), h) == Found(w, h) && RightsAt(TaskGone(w, o), h) == RightsAt(w, h)
    {
      TaskFound(w, o, h);
    }
  }

  lemma TaskFound(w: World, o: nat, h: Holder)
    requires o in w.objs && w.objs[o].Task? && o in w.tables && o in w.maps && Idle(w.tables[o], w.maps[o])
    ensures Found(TaskGone(w, o), h) == Found(w, h) && RightsAt(TaskGone(w, o), h) == RightsAt(w, h)
  {
  }

  lemma TaskGoneKeeps(w: World, extra: multiset<nat>, o: nat)
    requires Inv(w, extra) && o in extra && o in w.objs && w.objs[o].Task? && w.objs[o].refs == 1
    ensures Inv(TaskGone(w, o), extra - multiset{o})
  {
    var w' := TaskGone(w, o);
    NotAlive(w, extra, o);
    TaskWithout(w, extra, o);
    OtherTasks(w, w', extra, o);
    assert InvKey(5, w, extra);
    PagesStep(w, w');
    GoneKeeps(w, w', extra, o);
  }

  function EndpointGone(w: World, o: nat): World {
    w.(objs := w.objs - {o}, issued := w.issued - {o})
  }

  lemma EndpointFound(w: World, o: nat, h: Holder)
    requires o in w.objs && w.objs[o].Endpoint? && w.objs[o].queue == []
    ensures Found(EndpointGone(w, o), h) == Found(w, h) && RightsAt(EndpointGone(w, o), h) == RightsAt(w, h)
  {
  }

  lemma EndpointWithout(w: World, extra: multiset<nat>, o: nat)
    requires Inv(w, extra) && o in w.objs && w.objs[o].Endpoint? && w.objs[o].queue == []
    ensures Without(w, EndpointGone(w, o), o) && o !in w.tables
  {
    assert InvKey(2, w, extra);
    assert o in w.tables ==> TaskOk(w, o);
    forall h | Look(h)
      ensures Found(EndpointGone(w, o), h) == Found(w, h) && RightsAt(EndpointGone(w, o), h) == RightsAt(w, h)
    {
      EndpointFound(w, o, h);
    }
  }

  lemma EndpointGoneKeeps(w: World, extra: multiset<nat>, o: nat)
    requires Inv(w, extra) && o in extra && o in w.objs && w.objs[o].Endpoint? && w.objs[o].queue == []
    requires w.objs[o].refs == 1
    ensures Inv(EndpointGone(w, o), extra - multiset{o})
  {
    var w' := EndpointGone(w, o);
    EndpointWithout(w, extra, o);
    TheKeys(w, extra);
    assert w.tables - {o} == w.tables && w.maps - {o} == w.maps && w.bumps - {o} == w.bumps;
    NotAlive(w, extra, o);
    OtherTasks(w, w', extra, o);
    assert InvKey(5, w, extra);
    PagesStep(w, w');
    GoneKeeps(w, w', extra, o);
  }

  /** A task has been reaped: the reference that kept it until then is on its way. */
  lemma ReapKeeps(w: World, t: nat)
    requires Inv(w, multiset{}) && Alive(t) in w.holders && t in w.tables && t in w.maps && Idle(w.tables[t], w.maps[t])
    ensures Inv(w.(holders := w.holders - {Alive(t)}), multiset{t})
  {
    var w', h := w.(holders := w.holders - {Alive(t)}), Alive(t);
    assert SameRefs(w, w') && SameKinds(w, w');
    assert OnlyAt(w, w', h);
    CountedLeave(w, w', multiset{}, h);
    assert InvKey(2, w, multiset{});
    assert multiset{} + multiset{t} == multiset{t};
    forall k | InvKey(k, w', multiset{t}) ensures Part(k, w', multiset{t}) {
      assert InvKey(k, w, multiset{});
      match k {
        case 0 => TiedStep(w, w', h);
        case 1 =>
        case 2 =>
          forall s | s in w'.tables ensures TaskOk(w', s) {
            assert TaskOk(w, s);
          }
        case 3 => KindsStep(w, w', h);
        case 4 => RightsStep(w, w', h);
        case _ => KindPages(w, w');
      }
    }
  }

  // ---- new objects ----

  /** One object more, with one reference. */
  ghost predicate Born(w: World, w': World, o: nat, h: Holder) {
    && o !in w.objs && o !in w.issued && h !in w.holders
    && o in w'.objs && w'.objs == w.objs[o := w'.objs[o]] && w'.objs[o].refs == 1 && w'.holders == w.holders[h := o]
    && o in w'.issued && w'.issued == w.issued[o := w'.issued[o]] && w'.issued[o] <= RIGHTS_ALL
    && (forall e | e in w.popped :: e in w'.popped) && OnlyAt(w, w', h) && Found(w', h) == Some(o)
    && RightsAt(w', h) == {}
  }

  lemma BornCounts(w: World, w': World, o: nat, h: Holder)
    requires Inv(w, multiset{}) && Born(w, w', o, h)
    ensures Counted(w', multiset{})
  {
    OpenCounts(w, multiset{});
    RefsJoin(w.holders, h, o);
    assert RefsOf(w.holders, o) == {};
  }

  lemma BornKinds(w: World, w': World, o: nat, h: Holder)
    requires KindsOk(w) && Born(w, w', o, h) && (h.Alive? || h.Kept?)
    requires w'.objs[o].Endpoint? ==> o in w'.popped && w'.objs[o].queue == []
    ensures KindsOk(w')
  {
    forall e, k | Queued(e, k) in w'.holders ensures Transferable(w', w'.holders[Queued(e, k)]) {
      assert Look(Queued(e, k)) && Transferable(w, w.holders[Queued(e, k)]);
    }
    forall t, i | Mapped(t, i) in w'.holders
      ensures w'.holders[Mapped(t, i)] in w'.objs && w'.objs[w'.holders[Mapped(t, i)]].Vmo?
    {
      assert Look(Mapped(t, i)) && w.objs[w.holders[Mapped(t, i)]].Vmo?;
    }
  }

  lemma BornRights(w: World, w': World, o: nat, h: Holder)
    requires RightsOk(w) && Born(w, w', o, h) && forall g | g in w.holders :: w.holders[g] in w.objs
    ensures RightsOk(w')
  {
    forall g | g in w'.holders && w'.holders[g] in w'.issued ensures RightsAt(w', g) <= w'.issued[w'.holders[g]] {
      assert Look(g);
    }
  }

  lemma HeldExist(w: World, extra: multiset<nat>)
    requires Inv(w, extra)
    ensures forall h | h in w.holders :: w.holders[h] in w.objs
  {
    OpenCounts(w, extra);
  }

  lemma BornKeeps(w: World, w': World, o: nat, h: Holder)
    requires Inv(w, multiset{}) && Born(w, w', o, h) && (h.Alive? || h.Kept?) && TasksOk(w') && PagesOk(w')
    requires w'.objs[o].Endpoint? ==> o in w'.popped && w'.objs[o].queue == []
    ensures Inv(w', multiset{})
  {
    BornCounts(w, w', o, h);
    HeldExist(w, multiset{});
    forall k | InvKey(k, w', multiset{}) ensures Part(k, w', multiset{}) {
      assert InvKey(k, w, multiset{});
      match k {
        case 0 => TiedStep(w, w', h);
        case 1 =>
        case 2 =>
        case 3 => BornKinds(w, w', o, h);
        case 4 => BornRights(w, w', o, h);
        case _ =>
      }
    }
  }

  /** A memory object of free pages. */
  function NewVmo(w: World, o: nat, pages: seq<nat>, n: nat, given: set<nat>): World {
    w.(objs := w.objs[o := Vmo(1, pages)], free := w.free - PageSet(pages),
       holders := w.holders[Kept(n) := o], issued := w.issued[o := given])
  }

  lemma NewPages(w: World, o: nat, pages: seq<nat>, n: nat, given: set<nat>)
    requires PagesOk(w) && o !in w.objs && Distinct(pages) && forall p <- pages :: p in w.free
    ensures PagesOk(NewVmo(w, o, pages, n, given))
  {
    var w' := NewVmo(w, o, pages, n, given);
    forall x: nat, i: nat, p: nat | HasPage(w'.objs, x, i, p)
      ensures if x == o then i < |pages| && p == pages[i] else HasPage(w.objs, x, i, p) && p !in pages
    {
      if x != o {
        assert HasPage(w.objs, x, i, p);
      }
    }
    forall x, i, p | HasPage(w'.objs, x, i, p) ensures p !in w'.free {
      if x != o {
        assert HasPage(w.objs, x, i, p);
      }
    }
    forall x, i, y, j, p | HasPage(w'.objs, x, i, p) && HasPage(w'.objs, y, j, p) ensures x == y && i == j {
      if x != o && y != o {
        assert HasPage(w.objs, x, i, p) && HasPage(w.objs, y, j, p);
      }
    }
  }

  lemma SameTasks(w: World, w': World, extra: multiset<nat>, o: nat)
    requires Inv(w, extra) && o in w'.objs && w'.objs == w.objs[o := w'.objs[o]] && !w'.objs[o].Task? && o !in w.objs
    requires w'.tables == w.tables && w'.maps == w.maps && w'.bumps == w.bumps
    requires forall t ::
               (Alive(t) in w'.holders <==> Alive(t) in w.holders)
               && (Alive(t) in w.holders ==> w'.holders[Alive(t)] == w.holders[Alive(t)])
    ensures TasksOk(w')
  {
    assert InvKey(2, w, extra);
    forall t | t in w'.tables ensures TaskOk(w', t) {
      assert TaskOk(w, t);
      TaskSame(w, w', t);
    }
  }

  lemma VmoIsBorn(w: World, o: nat, pages: seq<nat>, n: nat, given: set<nat>)
    requires w.issued.Keys == w.objs.Keys && o !in w.objs && Kept(n) !in w.holders && given <= RIGHTS_ALL
    ensures Born(w, NewVmo(w, o, pages, n, given), o, Kept(n))
  {
  }

  lemma VmoBorn(w: World, o: nat, pages: seq<nat>, n: nat, given: set<nat>)
    requires Inv(w, multiset{}) && o !in w.objs && Kept(n) !in w.holders && given <= RIGHTS_ALL
    requires Distinct(pages) && forall p <- pages :: p in w.free
    ensures Inv(NewVmo(w, o, pages, n, given), multiset{})
  {
    var w' := NewVmo(w, o, pages, n, given);
    TheKeys(w, multiset{});
    VmoIsBorn(w, o, pages, n, given);
    SameTasks(w, w', multiset{}, o);
    assert InvKey(5, w, multiset{});
    NewPages(w, o, pages, n, given);
    BornKeeps(w, w', o, Kept(n));
  }

  function NewEndpoint(w: World, o: nat, n: nat): World {
    w.(objs := w.objs[o := Endpoint(1, [])], holders := w.holders[Kept(n) := o], issued := w.issued[o := {}],
       popped := w.popped[o := 0])
  }

  lemma EndpointIsBorn(w: World, o: nat, n: nat)
    requires w.issued.Keys == w.objs.Keys && o !in w.objs && Kept(n) !in w.holders
    ensures Born(w, NewEndpoint(w, o, n), o, Kept(n))
  {
  }

  lemma EndpointBorn(w: World, o: nat, n: nat)
    requires Inv(w, multiset{}) && o !in w.objs && Kept(n) !in w.holders
    ensures Inv(NewEndpoint(w, o, n), multiset{})
  {
    var w' := NewEndpoint(w, o, n);
    TheKeys(w, multiset{});
    EndpointIsBorn(w, o, n);
    SameTasks(w, w', multiset{}, o);
    assert InvKey(5, w, multiset{});
    NoNewPages(w, w', o);
    BornKeeps(w, w', o, Kept(n));
  }

  lemma NoNewPages(w: World, w': World, o: nat)
    requires PagesOk(w) && o in w'.objs && !w'.objs[o].Vmo? && w'.objs == w.objs[o := w'.objs[o]] && w'.free == w.free
    ensures PagesOk(w')
  {
    forall x, i, p | HasPage(w'.objs, x, i, p) ensures HasPage(w.objs, x, i, p) {
    }
  }

  function NewTask(w: World, o: nat): World {
    w.(objs := w.objs[o := Task(1)], holders := w.holders[Alive(o) := o], issued := w.issued[o := {}],
       tables := w.tables[o := NewTable()], maps := w.maps[o := seq(MAPS, i => None)],
       bumps := w.bumps[o := seq(SLOTS, i => 0)])
  }

  lemma NewTaskOk(w: World, extra: multiset<nat>, o: nat)
    requires Inv(w, extra) && o !in w.objs
    ensures TasksOk(NewTask(w, o)) && o !in w.tables && Alive(o) !in w.holders
  {
    assert InvKey(2, w, extra);
    var w' := NewTask(w, o);
    assert o in w.tables ==> TaskOk(w, o);
    FreshTask(w, o);
    forall t | t in w'.tables && t != o ensures TaskOk(w', t) {
      assert TaskOk(w, t);
      TaskSame(w, w', t);
    }
  }

  lemma FreshTask(w: World, o: nat)
    ensures TaskOk(NewTask(w, o), o)
  {
  }

  lemma NewTaskFound(w: World, o: nat, g: Holder)
    requires o !in w.objs && o !in w.tables && o !in w.maps && g != Alive(o)
    ensures Found(NewTask(w, o), g) == Found(w, g) && RightsAt(NewTask(w, o), g) == RightsAt(w, g)
  {
  }

  lemma TaskIsBorn(w: World, o: nat)
    requires w.issued.Keys == w.objs.Keys && o !in w.objs && o !in w.tables && o !in w.maps && Alive(o) !in w.holders
    ensures Born(w, NewTask(w, o), o, Alive(o))
  {
    forall g | Look(g) && g != Alive(o)
      ensures Found(NewTask(w, o), g) == Found(w, g) && RightsAt(NewTask(w, o), g) == RightsAt(w, g)
    {
      NewTaskFound(w, o, g);
    }
  }

  lemma TaskBorn(w: World, o: nat)
    requires Inv(w, multiset{}) && o !in w.objs
    ensures Inv(NewTask(w, o), multiset{})
  {
    var w' := NewTask(w, o);
    TheKeys(w, multiset{});
    NewTaskOk(w, multiset{}, o);
    TaskIsBorn(w, o);
    assert InvKey(5, w, multiset{});
    NoNewPages(w, w', o);
    BornKeeps(w, w', o, Alive(o));
  }
}
