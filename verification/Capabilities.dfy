/** The kernel calls that make, copy, move and drop references to objects. */
module Capabilities {
  import opened Common
  import opened Handles
  import opened References

  // Rights.
  const READ: nat := 0
  const WRITE: nat := 1
  const MAP: nat := 2
  const TRANSFER: nat := 3
  const DUPLICATE: nat := 4
  const SEND: nat := 5
  const RECV: nat := 6
  const INSPECT: nat := 7
  const MANAGE: nat := 8
  const SOVEREIGN: nat := 9

  const VMO_RIGHTS: set<nat> := {READ, WRITE, MAP, TRANSFER, DUPLICATE}

  const TASK_RIGHTS: set<nat> := {INSPECT, MANAGE, DUPLICATE, TRANSFER}

  // Object types; 0 stands for any.
  const ANY: nat := 0
  const TASK: nat := 1
  const ENDPOINT: nat := 2
  const VMO: nat := 3
  const SOV: nat := 4

  const MSG_MAX: nat := 128

  const VMO_PAGES: nat := 64

  datatype Code = Done | Invalid | NoMemory | BadHandle | WrongType | NoAccess | Full | Fault | Dead | Blocked

  function TypeOf(o: Object): nat {
    match o
    case Task(_) => TASK
    case Endpoint(_, _) => ENDPOINT
    case Vmo(_, _) => VMO
    case Static(_, kind) => SOV + kind
  }

  /** What a lookup says: the value names no slot, an object of another type, or lacks a right. */
  function Lookup(table: seq<Entry>, objs: map<nat, Object>, h: nat, kind: nat, need: set<nat>): Code
    requires TableOk(table)
  {
    match Resolve(table, h)
    case None => BadHandle
    case Some(i) =>
      if table[i].obj.None? || table[i].obj.value !in objs then BadHandle
      else if kind != ANY && TypeOf(objs[table[i].obj.value]) != kind then WrongType
      else if !(need <= table[i].rights) then NoAccess
      else Done
  }

  /** The free slot that an installation takes. */
  function FirstFree(table: seq<Entry>, i: nat): (j: nat)
    requires i <= |table|
    ensures i <= j <= |table| && (j < |table| ==> table[j].obj.None?) && forall k | i <= k < j :: table[k].obj.Some?
    decreases |table| - i
  {
    if i == |table| || table[i].obj.None? then i else FirstFree(table, i + 1)
  }

  /** Slot by slot: a value names nothing, an object of another type, or one to which a right is missing; or it
      names an object of that type with those rights. */
  lemma LookupIff(table: seq<Entry>, objs: map<nat, Object>, h: nat, kind: nat, need: set<nat>)
    requires TableOk(table) && forall i | 0 <= i < SLOTS && table[i].obj.Some? :: table[i].obj.value in objs
    ensures var st, s := Lookup(table, objs, h, kind, need), Resolve(table, h);
            && (st == BadHandle <==> s.None?)
            && (st == WrongType <==> s.Some? && kind != ANY && TypeOf(objs[table[s.value].obj.value]) != kind)
            && (st == NoAccess <==>
                  && s.Some? && (kind == ANY || TypeOf(objs[table[s.value].obj.value]) == kind)
                  && exists r :: r in need && r !in table[s.value].rights)
            && (st == Done <==>
                  && s.Some? && (kind == ANY || TypeOf(objs[table[s.value].obj.value]) == kind)
                  && forall r | r in need :: r in table[s.value].rights)
  {
  }

  /** Endpoint x, if it is still there, has the queue it had. */
  ghost predicate QueueKept(w: World, w': World, x: nat) {
    x in w.objs && x in w'.objs && w.objs[x].Endpoint? ==>
      w'.objs[x].Endpoint? && w'.objs[x].queue == w.objs[x].queue
  }

  ghost predicate QueuesKept(w: World, w': World) {
    forall x {:trigger QueueKept(w, w', x)} :: QueueKept(w, w', x)
  }

  /** Reference o has been dropped: the tables and mappings of the tasks that are left are as before, and
      every task that has not been reaped is left; of the holders only messages of o can be gone, and those
      that are left have the rights they had. */
  ghost predicate Less(w: World, w': World, o: nat) {
    forall k {:trigger LessKey(k, w, w', o)} :: LessKey(k, w, w', o) ==> Fewer(w, w', o)
  }

  ghost predicate LessKey(k: nat, w: World, w': World, o: nat) {
    true
  }

  /** Every holder that is left has the object and the rights it had. */
  ghost predicate Retained(w: World, w': World) {
    forall h {:trigger Look(h)} | Look(h) && h in w'.holders ::
      h in w.holders && w'.holders[h] == w.holders[h] && RightsAt(w', h) == RightsAt(w, h)
  }

  lemma RetainedOnly(w: World, w': World, h: Holder)
    requires OnlyAt(w, w', h) && h !in w'.holders
    ensures Retained(w, w')
  {
  }

  ghost predicate Fewer(w: World, w': World, o: nat) {
    && (forall t | t in w.tables && Alive(t) in w.holders :: t in w'.tables)
    && (forall t | t in w'.tables && t in w'.maps && t in w'.bumps ::
          && t in w.tables && t in w.maps && t in w.bumps
          && w'.tables[t] == w.tables[t] && w'.maps[t] == w.maps[t] && w'.bumps[t] == w.bumps[t])
    && (forall h | h in w.holders && !(h.Queued? && h.ep == o) :: h in w'.holders && w'.holders[h] == w.holders[h])
    && (forall h | h in w'.holders :: h in w.holders) && Retained(w, w')
    && (forall x | x in w'.objs :: x in w.objs && SameKind(w.objs[x], w'.objs[x]))
    && (forall x | x in w'.issued :: x in w.issued && w'.issued[x] == w.issued[x])
    && (forall x {:trigger QueueKept(w, w', x)} | x != o :: QueueKept(w, w', x))
  }

  /** What dropping a reference does to anything but the last reference to an endpoint. */
  function Unreffed(w: World, o: nat): World
    requires o in w.objs && w.objs[o].refs > 0
  {
    match w.objs[o]
    case Vmo(1, _) => VmoGone(w, o)
    case Task(1) => TaskGone(w, o)
    case _ => Dropped(w, o)
  }

  lemma UnreffedLess(w: World, extra: multiset<nat>, o: nat)
    requires Inv(w, extra) && o in extra && o in w.objs && w.objs[o].refs > 0
    ensures Less(w, Unreffed(w, o), o) && QueueKept(w, Unreffed(w, o), o)
  {
    TheKeys(w, extra);
    if w.objs[o].Task? && w.objs[o].refs == 1 {
      NotAlive(w, extra, o);
      TaskWithout(w, extra, o);
      TaskLess(w, o);
    } else if w.objs[o].Vmo? && w.objs[o].refs == 1 {
      VmoWithout(w, extra, o);
      VmoLess(w, o);
    } else {
      DropLess(w, o);
    }
  }

  lemma TaskLess(w: World, o: nat)
    requires w.maps.Keys == w.tables.Keys == w.bumps.Keys && Alive(o) !in w.holders && Without(w, TaskGone(w, o), o)
    ensures Less(w, TaskGone(w, o), o)
  {
  }

  lemma VmoLess(w: World, o: nat)
    requires w.maps.Keys == w.tables.Keys == w.bumps.Keys && o in w.objs && w.objs[o].Vmo?
    requires Without(w, VmoGone(w, o), o)
    ensures Less(w, VmoGone(w, o), o)
  {
  }

  lemma DropLess(w: World, o: nat)
    requires w.maps.Keys == w.tables.Keys == w.bumps.Keys && o in w.objs && w.objs[o].refs > 0
    ensures Less(w, Dropped(w, o), o)
  {
  }

  lemma LessTrans(w: World, w1: World, w2: World, o: nat, p: nat)
    requires Less(w, w1, o) && Less(w1, w2, p) && w2.holders == w1.holders && (p == o || QueueKept(w1, w2, p))
    requires w2.maps.Keys == w2.tables.Keys == w2.bumps.Keys
    ensures Less(w, w2, o)
  {
    assert LessKey(0, w, w1, o) && LessKey(0, w1, w2, p);
    forall x | x != o ensures QueueKept(w, w2, x) {
      assert QueueKept(w, w1, x) && QueueKept(w1, w2, x);
    }
  }

  lemma LessMore(w: World, w1: World, w2: World, o: nat)
    requires Less(w, w1, o) && Less(w1, w2, o) && w2.maps.Keys == w2.tables.Keys == w2.bumps.Keys
    ensures Less(w, w2, o)
  {
    assert LessKey(0, w, w1, o) && LessKey(0, w1, w2, o);
    assert forall t | t in w.tables && Alive(t) in w.holders :: t in w1.tables && Alive(t) in w1.holders;
    forall x | x != o ensures QueueKept(w, w2, x) {
      assert QueueKept(w, w1, x) && QueueKept(w1, w2, x);
    }
  }

  lemma PopLess(w: World, e: nat)
    requires e in w.objs && w.objs[e].Endpoint? && e in w.popped && w.objs[e].queue != []
    requires w.maps.Keys == w.tables.Keys == w.bumps.Keys
    ensures Less(w, Popped(w, e), e)
  {
    PopOnly(w, e);
    RetainedOnly(w, Popped(w, e), Queued(e, w.popped[e]));
  }

  /** The object that goes with the oldest message is a memory object or a task. */
  lemma FirstObject(w: World, extra: multiset<nat>, e: nat)
    requires Inv(w, extra) && e in w.objs && w.objs[e].Endpoint? && e in w.popped && w.objs[e].queue != []
    requires w.objs[e].queue[0].obj.Some?
    ensures var m := w.objs[e].queue[0];
            Transferable(w, m.obj.value) && m.obj.value in w.issued && m.rights <= w.issued[m.obj.value] <= RIGHTS_ALL
    ensures w.objs[w.objs[e].queue[0].obj.value].refs > 0
  {
    OpenCounts(w, extra);
    TheKeys(w, extra);
    var h := Queued(e, w.popped[e]);
    assert Found(w, h) == w.objs[e].queue[0].obj && RightsAt(w, h) == w.objs[e].queue[0].rights;
    TheObject(w, extra, h);
  }

  ghost predicate Taken(w: World, t: nat, i: nat) {
    t in w.tables && i < |w.tables[t]| && w.tables[t][i].obj.Some?
  }

  /** A slot that is taken holds its object with rights the kernel has given out. */
  lemma TheSlot(w: World, extra: multiset<nat>, t: nat, i: nat)
    requires Inv(w, extra) && Taken(w, t, i)
    ensures var e := w.tables[t][i];
            e.obj.value in w.objs && e.obj.value in w.issued && e.rights <= w.issued[e.obj.value] <= RIGHTS_ALL
    ensures Handle(t, i) in w.holders && w.holders[Handle(t, i)] == w.tables[t][i].obj.value
  {
    TheObject(w, extra, Handle(t, i));
    TheKeys(w, extra);
  }

  ghost function DupCode(w: World, t: nat, h: nat, rights: set<nat>): Code
    requires t in w.tables && TableOk(w.tables[t])
  {
    var st := Lookup(w.tables[t], w.objs, h, ANY, {DUPLICATE});
    if st != Done then st
    else if !(rights <= w.tables[t][Resolve(w.tables[t], h).value].rights) then NoAccess
    else if FirstFree(w.tables[t], 0) == SLOTS then NoMemory
    else Done
  }

  ghost function TakeCode(w: World, t: nat, h: nat, rights: set<nat>): Code
    requires t in w.tables && TableOk(w.tables[t])
  {
    var st := Lookup(w.tables[t], w.objs, h, ANY, {TRANSFER});
    if st != Done then st
    else if !(rights <= w.tables[t][Resolve(w.tables[t], h).value].rights) then NoAccess
    else Done
  }

  /** The object a value names. */
  ghost function Named(w: World, t: nat, h: nat): nat
    requires t in w.tables && TableOk(w.tables[t]) && Resolve(w.tables[t], h).Some?
  {
    w.tables[t][Resolve(w.tables[t], h).value].obj.value
  }

  ghost function SendCode(w: World, t: nat, eh: nat, data: seq<Byte>, fault: bool, h: nat, rights: set<nat>): Code
    requires t in w.tables && TableOk(w.tables[t])
  {
    var st := Lookup(w.tables[t], w.objs, eh, ENDPOINT, {SEND});
    if st != Done then st
    else if |data| > MSG_MAX then Invalid
    else if |w.objs[Named(w, t, eh)].queue| == QUEUE then Full
    else if fault then Fault
    else if h == 0 then Done
    else if TakeCode(w, t, h, rights) != Done then TakeCode(w, t, h, rights)
    else if !Transferable(w, Named(w, t, h)) then Invalid
    else Done
  }

  /** The queue has the message at its end; a handle that went along is gone, and its rights were no less. */
  ghost predicate Sent(w: World, w': World, t: nat, eh: nat, data: seq<Byte>, h: nat, rights: set<nat>)
    requires t in w.tables && TableOk(w.tables[t])
  {
    && Resolve(w.tables[t], eh).Some?
    && var e := Named(w, t, eh);
       && e in w.objs && w.objs[e].Endpoint? && e in w.popped
       && SEND in w.tables[t][Resolve(w.tables[t], eh).value].rights
       && if h == 0 then w' == Pushed(w, e, Msg(data, t, None, {}))
          else
            && Resolve(w.tables[t], h).Some?
            && var i := Resolve(w.tables[t], h).value;
               && rights <= w.tables[t][i].rights && TRANSFER in w.tables[t][i].rights
               && t in w.bumps && i < |w.bumps[t]|
               && w' == Pushed(Closed(w, t, i), e, Msg(data, t, Some(Named(w, t, h)), rights))
  }

  ghost function ReceiveCode(w: World, t: nat, eh: nat, cap: nat, usable: bool): Code
    requires t in w.tables && TableOk(w.tables[t])
  {
    var st := Lookup(w.tables[t], w.objs, eh, ENDPOINT, {RECV});
    if st != Done then st
    else
      var q := w.objs[Named(w, t, eh)].queue;
      if q == [] then Blocked
      else if |q[0].data| > cap then Invalid
      else if !usable then Fault
      else if q[0].obj.Some? && FirstFree(w.tables[t], 0) == SLOTS then NoMemory
      else Done
  }

  /** The message was the oldest; its object, if any, has moved to a handle with the rights it was sent with. */
  ghost predicate Received(w: World, w': World, t: nat, eh: nat, m: Msg, h: nat)
    requires t in w.tables && TableOk(w.tables[t])
  {
    && Resolve(w.tables[t], eh).Some?
    && var e := Named(w, t, eh);
       && e in w.objs && w.objs[e].Endpoint? && e in w.popped && w.objs[e].queue != [] && w.objs[e].queue[0] == m
       && RECV in w.tables[t][Resolve(w.tables[t], eh).value].rights
       && if m.obj.None? then w' == Popped(w, e) && h == 0
          else
            var o, i := m.obj.value, FirstFree(w.tables[t], 0);
            && o in w.objs && o in w.issued && o != e && i < SLOTS
            && var w1 := Installed(w, t, i, o, m.rights, {});
               w' == Dropped(Popped(w1, e), o) && h == Encode(i, w.tables[t][i].gen)
  }

  // Pools.
  const VMO_POOL: nat := 32
  const EP_POOL: nat := 48
  const TASK_POOL: nat := 80

  /** A new memory object with one reference: the handle. */
  ghost predicate VmoMade(w: World, w': World, t: nat, n: nat, h: nat)
    requires t in w.tables
  {
    exists o: nat :: o < VMO_POOL && VmoAt(w, w', t, n, h, o)
  }

  ghost predicate VmoAt(w: World, w': World, t: nat, n: nat, h: nat, o: nat)
    requires t in w.tables
  {
    var i := FirstFree(w.tables[t], 0);
    && o !in w.objs && o in w'.objs && w'.objs[o].Vmo? && w'.objs == w.objs[o := w'.objs[o]]
    && w'.objs[o].refs == 1 && |w'.objs[o].pages| == n && w'.free == w.free - PageSet(w'.objs[o].pages)
    && i < |w.tables[t]| && h == Encode(i, w.tables[t][i].gen)
    && w'.tables == w.tables[t := w.tables[t][i := w.tables[t][i].(obj := Some(o), rights := VMO_RIGHTS)]]
    && w'.maps == w.maps && w'.bumps == w.bumps && w'.popped == w.popped
    && w'.holders == w.holders[Handle(t, i) := o] && w'.issued == w.issued[o := VMO_RIGHTS]
  }

  /** The pages drawn from `all`, of which `free` are left. */
  ghost predicate Drawn(all: set<nat>, free: set<nat>, pages: seq<nat>) {
    && Distinct(pages) && (forall p <- pages :: p in all) && free == all - PageSet(pages) && |free| == |all| - |pages|
  }

  lemma DrawOne(all: set<nat>, free: set<nat>, pages: seq<nat>, p: nat)
    requires Drawn(all, free, pages) && p in free
    ensures Drawn(all, free - {p}, pages + [p])
  {
    assert PageSet(pages + [p]) == PageSet(pages) + {p};
  }

  lemma PublishedAt(w: World, t: nat, o: nat, pages: seq<nat>, k: nat)
    requires t in w.tables && FirstFree(w.tables[t], 0) < |w.tables[t]| && o !in w.objs && Kept(k) !in w.holders
    ensures var i := FirstFree(w.tables[t], 0);
            var w1 := Installed(NewVmo(w, o, pages, k, VMO_RIGHTS), t, i, o, VMO_RIGHTS, {});
            VmoAt(w, Unreffed(w1.(holders := w1.holders - {Kept(k)}), o), t, |pages|, Encode(i, w.tables[t][i].gen), o)
  {
    var i := FirstFree(w.tables[t], 0);
    assert w.holders[Kept(k) := o][Handle(t, i) := o] - {Kept(k)} == w.holders[Handle(t, i) := o];
    assert VMO_RIGHTS + {} == VMO_RIGHTS;
  }

  lemma PublishedNot(w: World, o: nat, pages: seq<nat>, k: nat)
    requires o !in w.objs && o !in w.issued && Kept(k) !in w.holders && forall p <- pages :: p in w.free
    ensures var w1 := NewVmo(w, o, pages, k, VMO_RIGHTS);
            var w2 := Unreffed(w1.(holders := w1.holders - {Kept(k)}), o);
            w2 == w
  {
    assert w.issued[o := VMO_RIGHTS] - {o} == w.issued;
    assert w.holders[Kept(k) := o] - {Kept(k)} == w.holders;
    assert w.objs[o := Vmo(1, pages)] - {o} == w.objs;
    assert w.free - PageSet(pages) + PageSet(pages) == w.free;
  }

  ghost predicate Living(w: World, alive: set<nat>) {
    forall t: nat {:trigger Alive(t)} :: t in alive <==> Alive(t) in w.holders
  }

  lemma LivingTask(w: World, alive: set<nat>, t: nat)
    requires Inv(w, multiset{}) && Living(w, alive) && t in alive
    ensures Alive(t) in w.holders && t in w.tables
  {
    assert InvKey(2, w, multiset{});
    assert Alive(t) in w.holders;
  }

  lemma IdleHolds(w: World, t: nat)
    requires Inv(w, multiset{}) && t in w.tables && t in w.maps && Idle(w.tables[t], w.maps[t])
    ensures forall i :: Handle(t, i) !in w.holders && Mapped(t, i) !in w.holders
  {
    assert InvKey(0, w, multiset{});
    forall i ensures Handle(t, i) !in w.holders && Mapped(t, i) !in w.holders {
      assert Found(w, Handle(t, i)) == None && Found(w, Mapped(t, i)) == None;
    }
  }

  /** Device objects that nobody holds, and nothing else. */
  lemma EmptyOk(w: World)
    requires w.tables == map[] && w.maps == map[] && w.holders == map[] && w.popped == map[] && w.bumps == map[]
    requires w.issued.Keys == w.objs.Keys
    requires forall o | o in w.objs :: w.objs[o].Static? && w.objs[o].refs == 0 && o in w.issued && w.issued[o] == {}
    ensures Inv(w, multiset{})
  {
    assert forall o :: RefsOf(w.holders, o) == {};
    forall k | InvKey(k, w, multiset{}) ensures Part(k, w, multiset{}) {
      match k {
        case 0 =>
        case 1 =>
        case 2 =>
        case 3 =>
        case 4 =>
        case _ =>
      }
    }
  }

  /** The first mapping slot that is free. */
  function FirstNone(maps: seq<Option<nat>>, i: nat): (j: nat)
    requires i <= |maps|
    ensures i <= j <= |maps| && (j < |maps| ==> maps[j].None?) && forall k | i <= k < j :: maps[k].Some?
    decreases |maps| - i
  {
    if i == |maps| || maps[i].None? then i else FirstNone(maps, i + 1)
  }

  /** The rights a mapping needs: prot 1 reads, 2 and 3 write. */
  function MapNeeds(prot: nat): set<nat> {
    {MAP, READ} + if prot >= 2 then {WRITE} else {}
  }

  ghost function MapCode(w: World, t: nat, h: nat, prot: nat, place: Code, mapped: Code): Code
    requires t in w.tables && t in w.maps && TableOk(w.tables[t])
  {
    if prot == 0 || prot > 3 then Invalid
    else
      var st := Lookup(w.tables[t], w.objs, h, VMO, MapNeeds(prot));
      if st != Done then st
      else if place != Done then place
      else if FirstNone(w.maps[t], 0) == |w.maps[t]| then NoMemory
      else mapped
  }

  lemma {:induction false} Above(s: set<nat>) returns (k: nat)
    ensures forall x | x in s :: x < k
    decreases s
  {
    if s == {} {
      k := 0;
    } else {
      var x :| x in s;
      k := Above(s - {x});
      assert forall y | y in s :: y == x || y in s - {x};
      if k <= x {
        k := x + 1;
      }
    }
  }

  lemma FreshKept(holders: map<Holder, nat>) returns (k: nat)
    ensures Kept(k) !in holders
  {
    var s := set h | h in holders && h.Kept? :: h.no;
    k := Above(s);
    assert forall h | h in holders && h.Kept? :: h.no in s;
  }

  /** Slots of the tasks that live on have been closed or moved no less often. */
  ghost predicate Later(w: World, w': World) {
    forall t | t in w.bumps && t in w'.bumps ::
      |w'.bumps[t]| == |w.bumps[t]| && forall i | 0 <= i < |w.bumps[t]| :: w'.bumps[t][i] >= w.bumps[t][i]
  }

  ghost predicate CalmKey(k: nat, w: World, w': World) {
    true
  }

  /** No task comes, and none stops being alive (behind a key). */
  ghost predicate Calm(w: World, w': World) {
    forall k {:trigger CalmKey(k, w, w')} :: CalmKey(k, w, w') ==>
      && Later(w, w') && w'.bumps.Keys <= w.bumps.Keys
      && (forall t {:trigger Alive(t)} :: Alive(t) in w'.holders <==> Alive(t) in w.holders)
  }

  lemma CalmTrans(w: World, w1: World, w2: World)
    requires Calm(w, w1) && Calm(w1, w2)
    ensures Calm(w, w2)
  {
    assert CalmKey(0, w, w1) && CalmKey(0, w1, w2);
    assert forall t | t in w2.bumps :: t in w1.bumps.Keys;
  }

  lemma CalmAlive(w: World, w': World, alive: set<nat>)
    requires Calm(w, w') && Living(w, alive)
    ensures Living(w', alive) && Later(w, w')
  {
    assert CalmKey(0, w, w');
  }

  ghost predicate ShrinkKey(k: nat, w: World, w': World) {
    true
  }

  /** No object comes, to those that stay no right is given out, every holder that is left has what it had,
      and no task but t has changed (behind a key). */
  ghost predicate Shrinks(w: World, w': World, t: nat) {
    forall k {:trigger ShrinkKey(k, w, w')} :: ShrinkKey(k, w, w') ==>
      && (forall x | x in w'.objs :: x in w.objs && SameKind(w.objs[x], w'.objs[x]))
      && (forall x | x in w'.issued :: x in w.issued && w'.issued[x] == w.issued[x])
      && Retained(w, w') && OthersAs(w, w', t) && QueuesKept(w, w')
  }

  /** The tasks that are left, other than t, have the tables and mappings they had. */
  ghost predicate OthersAs(w: World, w': World, t: nat) {
    && w'.maps.Keys == w'.tables.Keys == w'.bumps.Keys && w'.tables.Keys <= w.tables.Keys <= w.maps.Keys * w.bumps.Keys
    && forall u | u in w'.tables && u != t ::
         w'.tables[u] == w.tables[u] && w'.maps[u] == w.maps[u] && w'.bumps[u] == w.bumps[u]
  }

  lemma ShrinkTrans(w: World, w1: World, w2: World, t: nat)
    requires Shrinks(w, w1, t) && Shrinks(w1, w2, t)
    ensures Shrinks(w, w2, t)
  {
    assert ShrinkKey(0, w, w1) && ShrinkKey(0, w1, w2);
    forall x | x in w2.objs ensures x in w.objs && SameKind(w.objs[x], w2.objs[x]) {
      assert SameKind(w.objs[x], w1.objs[x]) && SameKind(w1.objs[x], w2.objs[x]);
    }
    forall x ensures QueueKept(w, w2, x) {
      assert QueueKept(w, w1, x) && QueueKept(w1, w2, x);
    }
  }

  /** A holder of t has gone, and then its reference. */
  lemma ShrinkSame(w: World, w1: World, w2: World, o: nat, h: Holder, t: nat)
    requires w1.objs == w.objs && w1.issued == w.issued && OnlyAt(w, w1, h) && h !in w1.holders && OthersAs(w, w1, t)
    requires Less(w1, w2, o) && w2.maps.Keys == w2.tables.Keys == w2.bumps.Keys && QueueKept(w1, w2, o)
    ensures Shrinks(w, w2, t)
  {
    RetainedOnly(w, w1, h);
    assert LessKey(0, w1, w2, o);
    forall x ensures QueueKept(w, w2, x) {
      assert x != o ==> QueueKept(w1, w2, x);
    }
  }

  lemma ShrinkNot(w: World, t: nat)
    requires w.maps.Keys == w.tables.Keys == w.bumps.Keys
    ensures Shrinks(w, w, t)
  {
  }

  lemma CalmHeld(w: World, w': World, t: nat)
    requires Calm(w, w') && Alive(t) in w.holders
    ensures Alive(t) in w'.holders
  {
    assert CalmKey(0, w, w');
  }

  lemma LaterTrans(w: World, w1: World, w2: World)
    requires Calm(w, w1) && Later(w1, w2) && w2.bumps.Keys <= w1.bumps.Keys
    ensures Later(w, w2)
  {
    assert CalmKey(0, w, w1);
    assert forall t | t in w2.bumps :: t in w1.bumps.Keys;
  }

  lemma CalmInstalled(w: World, t: nat, i: nat, o: nat, rights: set<nat>, given: set<nat>)
    requires o in w.objs && t in w.tables && i < |w.tables[t]| && o in w.issued
    ensures Calm(w, Installed(w, t, i, o, rights, given))
  {
  }

  lemma CalmClosed(w: World, t: nat, i: nat)
    requires t in w.tables && i < |w.tables[t]| && t in w.bumps && i < |w.bumps[t]|
    ensures Calm(w, Closed(w, t, i))
  {
  }

  lemma CalmLess(w: World, w': World, extra: multiset<nat>, o: nat)
    requires Less(w, w', o) && Inv(w', extra)
    ensures Calm(w, w')
  {
    assert LessKey(0, w, w', o);
    TheKeys(w', extra);
    assert forall t | t in w'.bumps :: t in w'.tables.Keys && t in w'.maps.Keys;
  }

  lemma CalmPushed(w: World, e: nat, m: Msg)
    requires e in w.objs && w.objs[e].Endpoint? && e in w.popped
    ensures Calm(w, Pushed(w, e, m))
  {
  }

  lemma CalmSame(w: World, w': World)
    requires w'.bumps == w.bumps && forall t {:trigger Alive(t)} :: Alive(t) in w'.holders <==> Alive(t) in w.holders
    ensures Calm(w, w')
  {
  }

  lemma NewTaskLater(w: World, w': World, n: nat)
    requires n !in w.bumps && Later(NewTask(w, n), w') && w'.bumps.Keys <= w.bumps.Keys + {n}
    ensures Later(w, w')
  {
  }

  lemma TheTable(w: World, t: nat, n: nat)
    requires Inv(w, multiset{}) && t in w.tables && n !in w.objs
    ensures n != t && n !in w.bumps && NewTask(w, n).tables[t] == w.tables[t]
  {
    assert InvKey(2, w, multiset{});
    assert TaskOk(w, t) && (n in w.tables ==> TaskOk(w, n));
    TheKeys(w, multiset{});
  }

  /** Task n is new, and t has a handle to it. */
  ghost predicate Spawned(w: World, w': World, t: nat, n: nat, h: nat) {
    && n !in w.objs && t in w.tables && t in NewTask(w, n).tables
    && var i := FirstFree(w.tables[t], 0);
       && i < |w.tables[t]| && i < |NewTask(w, n).tables[t]|
       && w' == Installed(NewTask(w, n), t, i, n, TASK_RIGHTS, TASK_RIGHTS) && h == Encode(i, w.tables[t][i].gen)
  }

  lemma Unmapped(w: World, w': World, t: nat, i: nat)
    requires Inv(w, multiset{}) && Inv(w', multiset{}) && t in w.tables && t in w.maps && i < |w.maps[t]|
    requires w.maps[t][i].Some?
    requires Alive(t) in w.holders && Less(MapDropped(w, t, i), w', w.maps[t][i].value)
    requires QueueKept(MapDropped(w, t, i), w', w.maps[t][i].value)
    ensures Calm(w, w') && Shrinks(w, w', t) && t in w'.tables && t in w'.maps
    ensures w'.tables[t] == w.tables[t] && w'.maps[t] == w.maps[t][i := None]
  {
    var w1, o := MapDropped(w, t, i), w.maps[t][i].value;
    TheKeys(w, multiset{});
    TheKeys(w', multiset{});
    CalmSame(w, w1);
    CalmLess(w1, w', multiset{}, o);
    CalmTrans(w, w1, w');
    UnmapOnly(w, t, i);
    ShrinkSame(w, w1, w', o, Mapped(t, i), t);
    assert LessKey(0, w1, w', o);
  }

  ghost function SpawnCode(w: World, t: nat, sh: nat): Code
    requires t in w.tables && TableOk(w.tables[t])
  {
    var st := Lookup(w.tables[t], w.objs, sh, SOV, {SOVEREIGN});
    if st != Done then st
    else if FirstFree(w.tables[t], 0) == SLOTS || forall x: nat | EP_POOL <= x < TASK_POOL :: x in w.objs then NoMemory
    else Done
  }

  class Kernel {
    var objs: map<nat, Object>
    var tables: map<nat, seq<Entry>>
    var maps: map<nat, seq<Option<nat>>>
    var free: set<nat>
    var alive: set<nat>  // the tasks that have not been reaped
    ghost var holders: map<Holder, nat>
    ghost var popped: map<nat, nat>
    ghost var issued: map<nat, set<nat>>
    ghost var bumps: map<nat, seq<nat>>

    ghost function W(): World
      reads this
    {
      World(objs, tables, maps, free, holders, popped, issued, bumps)
    }

    /** Every count is the number of holders, and so on. */
    ghost predicate Valid()
      reads this
    {
      Inv(W(), multiset{})
    }

    /** ... and the tasks that count as not reaped are those. */
    ghost predicate Ready()
      reads this
    {
      Valid() && Living(W(), alive)
    }

    /** The kernel's device objects and no task yet. */
    constructor (free: set<nat>)
      ensures Ready() && this.free == free && alive == {} && objs.Keys == {80, 81, 82, 83}
    {
      objs := map[80 := Static(0, 0), 81 := Static(0, 1), 82 := Static(0, 2), 83 := Static(0, 3)];
      tables, maps, this.free, alive := map[], map[], free, {};
      holders, popped, bumps := map[], map[], map[];
      issued := map[80 := {}, 81 := {}, 82 := {}, 83 := {}];
      new;
      EmptyOk(W());
    }

    method FindFree(t: nat) returns (i: nat)
      requires t in tables
      ensures i == FirstFree(tables[t], 0)
    {
      i := 0;
      while i < |tables[t]| && tables[t][i].obj.Some?
        invariant i <= |tables[t]| && FirstFree(tables[t], 0) == FirstFree(tables[t], i)
      {
        i := i + 1;
      }
    }

    /** The first free slot gets the object, with exactly these rights. */
    method Install(t: nat, o: nat, rights: set<nat>, ghost given: set<nat>, ghost extra: multiset<nat>)
      returns (st: Code, h: nat)
      requires Inv(W(), extra) && t in tables && Alive(t) in holders && o in objs && o in issued
      requires rights <= RIGHTS_ALL ==> rights <= issued[o] + given && given <= RIGHTS_ALL
      modifies `objs, `tables, `maps, `free, `holders, `popped, `issued, `bumps
      ensures Inv(W(), extra)
      ensures st == if !(rights <= RIGHTS_ALL) then Invalid
                    else if FirstFree(old(tables)[t], 0) == |old(tables)[t]| then NoMemory else Done
      ensures st != Done ==> W() == old(W())
      ensures st == Done ==>
                var i := FirstFree(old(tables)[t], 0);
                W() == Installed(old(W()), t, i, o, rights, given) && h == Encode(i, tables[t][i].gen)
    {
      h := 0;
      if !(rights <= RIGHTS_ALL) {
        return Invalid, 0;
      }
      var i := FindFree(t);
      if i == |tables[t]| {
        return NoMemory, 0;
      }
      InstallKeeps(W(), extra, t, i, o, rights, given);
      objs := AddRef(objs, o);
      tables := tables[t := tables[t][i := tables[t][i].(obj := Some(o), rights := rights)]];
      holders, issued := holders[Handle(t, i) := o], issued[o := issued[o] + given];
      return Done, Encode(i, tables[t][i].gen);
    }

    /** A reference goes; the last one takes a memory object or a task with it. */
    method UnrefPlain(o: nat, ghost extra: multiset<nat>)
      requires Inv(W(), extra) && o in extra && o in objs && (objs[o].Endpoint? ==> objs[o].refs > 1)
      requires objs[o].refs > 0
      modifies `objs, `tables, `maps, `free, `holders, `popped, `issued, `bumps
      ensures Inv(W(), extra - multiset{o}) && W() == Unreffed(old(W()), o)
    {
      var obj := objs[o];
      if obj.refs > 1 || obj.Static? {
        DropKeeps(W(), extra, o);
        objs := objs[o := Refs(obj, obj.refs - 1)];
      } else if obj.Vmo? {
        VmoGoneKeeps(W(), extra, o);
        objs, issued, free := objs - {o}, issued - {o}, free + PageSet(obj.pages);
      } else {
        TaskGoneKeeps(W(), extra, o);
        objs, issued, tables, maps, bumps := objs - {o}, issued - {o}, tables - {o}, maps - {o}, bumps - {o};
      }
    }

    /** The oldest message leaves its queue; its reference is the caller's. */
    method TakeFirst(e: nat, ghost extra: multiset<nat>) returns (m: Msg)
      requires Inv(W(), extra) && e in objs && objs[e].Endpoint? && e in popped && objs[e].queue != []
      modifies `objs, `tables, `maps, `free, `holders, `popped, `issued, `bumps
      ensures m == old(objs[e]).queue[0] && W() == Popped(old(W()), e) && Inv(W(), extra + Going(m))
    {
      m := objs[e].queue[0];
      PopKeeps(W(), extra, e);
      objs := objs[e := objs[e].(queue := objs[e].queue[1..])];
      holders, popped := holders - {Queued(e, popped[e])}, popped[e := popped[e] + 1];
    }

    method DrainOne(e: nat, ghost extra: multiset<nat>)
      requires Inv(W(), extra) && e in extra && e in objs && objs[e].Endpoint? && objs[e].refs == 1
      requires objs[e].queue != []
      modifies `objs, `tables, `maps, `free, `holders, `popped, `issued, `bumps
      ensures Inv(W(), extra) && Less(old(W()), W(), e)
      ensures e in objs && objs[e].Endpoint? && objs[e].refs == 1 && objs[e].queue == old(objs[e].queue)[1..]
    {
      ghost var w0 := W();
      TheKeys(w0, extra);
      ghost var first := objs[e].queue[0];
      if first.obj.Some? {
        FirstObject(w0, extra, e);
      }
      PopLess(w0, e);
      var m := TakeFirst(e, extra);
      if m.obj.Some? {
        ghost var w1, going := W(), extra + multiset{m.obj.value};
        UnreffedLess(w1, going, m.obj.value);
        UnrefPlain(m.obj.value, going);
        assert going - multiset{m.obj.value} == extra;
        TheKeys(W(), extra);
        LessTrans(w0, w1, W(), e, m.obj.value);
      } else {
        assert extra + multiset{} == extra;
      }
    }

    /** The messages of an endpoint that nobody can reach any more, and the references in them. */
    method Drain(e: nat, ghost extra: multiset<nat>)
      requires Inv(W(), extra) && e in extra && e in objs && objs[e].Endpoint? && objs[e].refs == 1
      modifies `objs, `tables, `maps, `free, `holders, `popped, `issued, `bumps
      ensures Inv(W(), extra) && Less(old(W()), W(), e)
      ensures e in objs && objs[e].Endpoint? && objs[e].refs == 1 && objs[e].queue == []
    {
      ghost var w0 := W();
      while objs[e].queue != []
        invariant Inv(W(), extra) && Less(w0, W(), e) && e in objs && objs[e].Endpoint? && objs[e].refs == 1
        decreases |objs[e].queue|
      {
        ghost var w1 := W();
        DrainOne(e, extra);
        TheKeys(W(), extra);
        LessMore(w0, w1, W(), e);
      }
    }

    /** The last reference to an endpoint. */
    method DestroyEndpoint(e: nat, ghost extra: multiset<nat>)
      requires Inv(W(), extra) && e in extra && e in objs && objs[e].Endpoint? && objs[e].refs == 1
      modifies `objs, `tables, `maps, `free, `holders, `popped, `issued, `bumps
      ensures Inv(W(), extra - multiset{e}) && Less(old(W()), W(), e) && e !in objs
    {
      ghost var w0 := W();
      Drain(e, extra);
      ghost var w1 := W();
      EndpointGoneKeeps(w1, extra, e);
      EndpointWithout(w1, extra, e);
      TheKeys(w1, extra);
      objs, issued := objs - {e}, issued - {e};
      assert Less(w1, W(), e);
      LessTrans(w0, w1, W(), e, e);
    }

    /** A reference goes, whatever it is to. */
    method Unref(o: nat, ghost extra: multiset<nat>)
      requires Inv(W(), extra) && o in extra && o in objs
      modifies `objs, `tables, `maps, `free, `holders, `popped, `issued, `bumps
      ensures Inv(W(), extra - multiset{o}) && Less(old(W()), W(), o) && QueueKept(old(W()), W(), o)
      ensures o in objs <==> old(objs[o].refs > 1 || objs[o].Static?)
    {
      TheGoing(W(), extra, o);
      if objs[o].Endpoint? && objs[o].refs == 1 {
        DestroyEndpoint(o, extra);
      } else {
        UnreffedLess(W(), extra, o);
        UnrefPlain(o, extra);
      }
    }

    /** The value stops resolving, and its reference goes. */
    method Close(t: nat, h: nat) returns (st: Code)
      requires Valid() && t in tables
      modifies `objs, `tables, `maps, `free, `holders, `popped, `issued, `bumps
      ensures Valid() && TableOk(old(tables)[t]) && st == if Resolve(old(tables)[t], h).None? then BadHandle else Done
      ensures st != Done ==> W() == old(W())
      ensures st == Done ==>
                var i := Resolve(old(tables)[t], h).value;
                t in old(bumps) && i < |old(bumps)[t]| && Less(Closed(old(W()), t, i), W(), old(tables)[t][i].obj.value)
                && QueueKept(Closed(old(W()), t, i), W(), old(tables)[t][i].obj.value)
    {
      TheTask(W(), multiset{}, t);
      match Resolve(tables[t], h) {
        case None =>
          return BadHandle;
        case Some(i) =>
          var o := tables[t][i].obj.value;
          CloseKeeps(W(), multiset{}, t, i, o);
          tables := tables[t := tables[t][i := Entry(None, {}, Bump(tables[t][i].gen))]];
          bumps, holders := bumps[t := bumps[t][i := bumps[t][i] + 1]], holders - {Handle(t, i)};
          assert multiset{} + multiset{o} == multiset{o} && multiset{o} - multiset{o} == multiset{};
          TheGoing(W(), multiset{o}, o);
          Unref(o, multiset{o});
          return Done;
      }
    }

    /** Another handle for what h names; it gets no right that h has not. */
    method Dup(t: nat, h: nat, rights: set<nat>) returns (st: Code, h': nat)
      requires Valid() && t in tables && Alive(t) in holders
      modifies `objs, `tables, `maps, `free, `holders, `popped, `issued, `bumps
      ensures Valid() && TableOk(old(tables)[t]) && st == DupCode(old(W()), t, h, rights)
      ensures st != Done ==> W() == old(W())
      ensures st == Done ==>
                var e, j := old(tables)[t][Resolve(old(tables)[t], h).value], FirstFree(old(tables)[t], 0);
                && rights <= e.rights && DUPLICATE in e.rights && e.obj.value in old(issued) && e.obj.value in old(objs)
                && W() == Installed(old(W()), t, j, e.obj.value, rights, {}) && h' == Encode(j, tables[t][j].gen)
    {
      TheTask(W(), multiset{}, t);
      st, h' := Lookup(tables[t], objs, h, ANY, {DUPLICATE}), 0;
      if st != Done {
        return;
      }
      var i := Resolve(tables[t], h).value;
      if !(rights <= tables[t][i].rights) {
        return NoAccess, 0;
      }
      TheSlot(W(), multiset{}, t, i);
      st, h' := Install(t, tables[t][i].obj.value, rights, {}, multiset{});
    }

    /** The value stops resolving; its reference is the caller's. */
    method Take(t: nat, h: nat, rights: set<nat>) returns (st: Code, o: nat)
      requires Valid() && t in tables
      modifies `objs, `tables, `maps, `free, `holders, `popped, `issued, `bumps
      ensures TableOk(old(tables)[t]) && st == TakeCode(old(W()), t, h, rights)
      ensures st != Done ==> Valid() && W() == old(W())
      ensures st == Done ==>
                var i := Resolve(old(tables)[t], h).value;
                && old(tables)[t][i].obj == Some(o) && rights <= old(tables)[t][i].rights && t in old(bumps)
                && i < |old(bumps)[t]|
                && W() == Closed(old(W()), t, i) && Inv(W(), multiset{o})
    {
      TheTask(W(), multiset{}, t);
      st, o := Lookup(tables[t], objs, h, ANY, {TRANSFER}), 0;
      if st != Done {
        return;
      }
      var i := Resolve(tables[t], h).value;
      if !(rights <= tables[t][i].rights) {
        return NoAccess, 0;
      }
      o := tables[t][i].obj.value;
      CloseKeeps(W(), multiset{}, t, i, o);
      assert multiset{} + multiset{o} == multiset{o};
      tables := tables[t := tables[t][i := Entry(None, {}, Bump(tables[t][i].gen))]];
      bumps, holders := bumps[t := bumps[t][i := bumps[t][i] + 1]], holders - {Handle(t, i)};
    }

    /** Puts a message at the end of a queue that has room. */
    method Push(e: nat, m: Msg)
      requires Inv(W(), Going(m)) && e in objs && objs[e].Endpoint? && |objs[e].queue| < QUEUE
      requires m.obj.Some? ==>
                 Transferable(W(), m.obj.value) && m.obj.value in issued && m.rights <= issued[m.obj.value]
      modifies `objs, `tables, `maps, `free, `holders, `popped, `issued, `bumps
      ensures Valid() && e in old(popped) && W() == Pushed(old(W()), e, m)
    {
      TheKeys(W(), Going(m));
      PushKeeps(W(), e, m);
      holders := if m.obj.Some? then holders[Queued(e, popped[e] + |objs[e].queue|) := m.obj.value] else holders;
      objs := objs[e := objs[e].(queue := objs[e].queue + [m])];
    }

    /** A message, and a handle that moves with it if h is not 0.  `fault`: the bytes cannot be read. */
    method Send(t: nat, eh: nat, data: seq<Byte>, fault: bool, h: nat, rights: set<nat>) returns (st: Code)
      requires Valid() && t in tables
      modifies `objs, `tables, `maps, `free, `holders, `popped, `issued, `bumps
      ensures Valid() && TableOk(old(tables)[t]) && st == SendCode(old(W()), t, eh, data, fault, h, rights)
      ensures st != Done ==> W() == old(W())
      ensures st == Done ==> Sent(old(W()), W(), t, eh, data, h, rights)
    {
      TheTask(W(), multiset{}, t);
      st := Lookup(tables[t], objs, eh, ENDPOINT, {SEND});
      if st != Done {
        return;
      }
      var e := tables[t][Resolve(tables[t], eh).value].obj.value;
      TheKeys(W(), multiset{});
      if |data| > MSG_MAX {
        return Invalid;
      }
      if |objs[e].queue| == QUEUE {
        return Full;
      }
      if fault {
        return Fault;
      }
      if h == 0 {
        Push(e, Msg(data, t, None, {}));
        return Done;
      }
      st := Lookup(tables[t], objs, h, ANY, {TRANSFER});
      if st != Done {
        return;
      }
      var x := tables[t][Resolve(tables[t], h).value];
      if !(rights <= x.rights) {
        return NoAccess;
      }
      if !objs[x.obj.value].Vmo? && !objs[x.obj.value].Task? {
        return Invalid;
      }
      TheSlot(W(), multiset{}, t, Resolve(tables[t], h).value);
      var o;
      st, o := Take(t, h, rights);
      Push(e, Msg(data, t, Some(o), rights));
    }

    /** The oldest message of an endpoint, if it fits and its object finds a slot: until then it stays.
        `usable`: the receiver's buffers can be written. */
    method Receive(t: nat, eh: nat, cap: nat, usable: bool) returns (st: Code, m: Msg, h: nat)
      requires Valid() && t in tables && Alive(t) in holders
      modifies `objs, `tables, `maps, `free, `holders, `popped, `issued, `bumps
      ensures Valid() && TableOk(old(tables)[t]) && st == ReceiveCode(old(W()), t, eh, cap, usable)
      ensures st != Done ==> W() == old(W())
      ensures st == Done ==> Received(old(W()), W(), t, eh, m, h)
    {
      m, h := Msg([], 0, None, {}), 0;
      TheTask(W(), multiset{}, t);
      st := Lookup(tables[t], objs, eh, ENDPOINT, {RECV});
      if st != Done {
        return;
      }
      var e := tables[t][Resolve(tables[t], eh).value].obj.value;
      TheKeys(W(), multiset{});
      if objs[e].queue == [] {
        st := Blocked;
        return;
      }
      var first := objs[e].queue[0];
      if |first.data| > cap {
        st := Invalid;
        return;
      }
      if !usable {
        st := Fault;
        return;
      }
      if first.obj.Some? {
        FirstObject(W(), multiset{}, e);
        st, h := Install(t, first.obj.value, first.rights, {}, multiset{});
        if st != Done {
          return;
        }
      }
      m := first;
      Pop(e);
    }

    /** The oldest message goes; its reference is dropped, for a handle has one by now. */
    method Pop(e: nat)
      requires Valid() && e in objs && objs[e].Endpoint? && e in popped && objs[e].queue != []
      requires var m := objs[e].queue[0];
               m.obj.Some? ==> m.obj.value in objs && m.obj.value != e && objs[m.obj.value].refs > 1
      modifies `objs, `tables, `maps, `free, `holders, `popped, `issued, `bumps
      ensures Valid()
      ensures var m, w := old(objs[e]).queue[0], Popped(old(W()), e);
              W() == if m.obj.Some? then Dropped(w, m.obj.value) else w
    {
      var m := TakeFirst(e, multiset{});
      if m.obj.Some? {
        var o := m.obj.value;
        assert multiset{} + multiset{o} == multiset{o} && multiset{o} - multiset{o} == multiset{};
        DropKeeps(W(), multiset{o}, o);
        objs := objs[o := Refs(objs[o], objs[o].refs - 1)];
      } else {
        assert multiset{} + Going(m) == multiset{};
      }
    }

    /** The first place of a pool that no object has. */
    method FindPlace(lo: nat, hi: nat) returns (o: nat)
      requires lo <= hi
      ensures lo <= o <= hi && (o < hi ==> o !in objs) && forall x | lo <= x < o :: x in objs
    {
      o := lo;
      while o < hi && o in objs
        invariant lo <= o <= hi && forall x | lo <= x < o :: x in objs
      {
        o := o + 1;
      }
    }

    /** So many free pages, or none. */
    method TakePages(n: nat) returns (ok: bool, pages: seq<nat>)
      modifies this`free
      ensures ok == (|old(free)| >= n)
      ensures !ok ==> free == old(free)
      ensures ok ==>
                |pages| == n && Distinct(pages) && (forall p <- pages :: p in old(free))
                && free == old(free) - PageSet(pages)
    {
      pages := [];
      while |pages| < n
        invariant |pages| <= n && Drawn(old(free), free, pages)
      {
        if free == {} {
          free := free + PageSet(pages);
          assert free == old(free);
          return false, [];
        }
        var p :| p in free;
        DrawOne(old(free), free, pages, p);
        free, pages := free - {p}, pages + [p];
      }
      return true, pages;
    }

    /** A memory object of n zeroed pages, with a handle that has all the rights to it. */
    method CreateVmo(t: nat, n: nat) returns (st: Code, h: nat)
      requires Valid() && t in tables && Alive(t) in holders
      modifies `objs, `tables, `maps, `free, `holders, `popped, `issued, `bumps
      ensures Valid()
      ensures st == Invalid <==> n == 0 || n > VMO_PAGES
      ensures st == Done ==> VmoMade(old(W()), W(), t, n, h)
      ensures st != Done ==> W() == old(W())
      ensures st == NoMemory ==>
                || FirstFree(old(tables)[t], 0) == |old(tables)[t]| || |old(free)| < n
                || forall o: nat | o < VMO_POOL :: o in old(objs)
      ensures st in {Done, Invalid, NoMemory}
    {
      h := 0;
      if n == 0 || n > VMO_PAGES {
        return Invalid, 0;
      }
      var o := FindPlace(0, VMO_POOL);
      if o == VMO_POOL {
        return NoMemory, 0;
      }
      ghost var w0 := W();
      var ok, pages := TakePages(n);
      if !ok {
        return NoMemory, 0;
      }
      st, h := Publish(t, o, pages, w0);
    }

    /** The new object, held by this call. */
    method BearVmo(o: nat, pages: seq<nat>, ghost w0: World) returns (ghost k: nat)
      requires Inv(w0, multiset{}) && W() == w0.(free := w0.free - PageSet(pages)) && o !in objs
      requires Distinct(pages) && forall p <- pages :: p in w0.free
      modifies `objs, `holders, `issued
      ensures Valid() && Kept(k) !in w0.holders && W() == NewVmo(w0, o, pages, k, VMO_RIGHTS)
    {
      k := FreshKept(holders);
      VmoBorn(w0, o, pages, k, VMO_RIGHTS);
      objs, holders, issued := objs[o := Vmo(1, pages)], holders[Kept(k) := o], issued[o := VMO_RIGHTS];
    }

    /** This call lets go of what it held. */
    method Unkeep(ghost k: nat, o: nat)
      requires Valid() && Kept(k) in holders && holders[Kept(k)] == o && o in objs && !objs[o].Endpoint?
      requires objs[o].refs > 0
      modifies `objs, `tables, `maps, `free, `holders, `popped, `issued, `bumps
      ensures Valid() && W() == Unreffed(old(W()).(holders := old(holders) - {Kept(k)}), o)
    {
      UnkeepKeeps(W(), multiset{}, k);
      holders := holders - {Kept(k)};
      assert multiset{} + multiset{o} == multiset{o} && multiset{o} - multiset{o} == multiset{};
      UnrefPlain(o, multiset{o});
    }

    /** The new object gets its handle, or goes again. */
    method Publish(t: nat, o: nat, pages: seq<nat>, ghost w0: World) returns (st: Code, h: nat)
      requires Inv(w0, multiset{}) && W() == w0.(free := w0.free - PageSet(pages)) && t in tables && Alive(t) in holders
      requires o !in objs
      requires Distinct(pages) && forall p <- pages :: p in w0.free
      modifies `objs, `tables, `maps, `free, `holders, `popped, `issued, `bumps
      ensures Valid() && st == if FirstFree(old(tables)[t], 0) == |old(tables)[t]| then NoMemory else Done
      ensures st == Done ==> VmoAt(w0, W(), t, |pages|, h, o)
      ensures st != Done ==> W() == w0
    {
      ghost var k := BearVmo(o, pages, w0);
      TheKeys(w0, multiset{});
      st, h := Install(t, o, VMO_RIGHTS, {}, multiset{});
      Unkeep(k, o);
      if st == Done {
        PublishedAt(w0, t, o, pages, k);
      } else {
        PublishedNot(w0, o, pages, k);
      }
    }

    /** A reference that the kernel itself had goes. */
    method LetGo(ghost k: nat, o: nat)
      requires Valid() && Kept(k) in holders && holders[Kept(k)] == o
      modifies `objs, `tables, `maps, `free, `holders, `popped, `issued, `bumps
      ensures Valid() && o in old(objs) && Less(old(W()).(holders := old(holders) - {Kept(k)}), W(), o)
      ensures o in objs <==> old(objs[o].refs > 1 || objs[o].Static?)
    {
      HeldExist(W(), multiset{});
      UnkeepKeeps(W(), multiset{}, k);
      holders := holders - {Kept(k)};
      assert multiset{} + multiset{o} == multiset{o} && multiset{o} - multiset{o} == multiset{};
      Unref(o, multiset{o});
    }

    method FindMap(t: nat) returns (i: nat)
      requires t in maps
      ensures i == FirstNone(maps[t], 0)
    {
      i := 0;
      while i < |maps[t]| && maps[t][i].Some?
        invariant i <= |maps[t]| && FirstNone(maps[t], 0) == FirstNone(maps[t], i)
      {
        i := i + 1;
      }
    }

    method Mappable(t: nat, h: nat, prot: nat) returns (st: Code, o: nat)
      requires t in tables && TableOk(tables[t])
      ensures st == if prot == 0 || prot > 3 then Invalid else Lookup(tables[t], objs, h, VMO, MapNeeds(prot))
      ensures st == Done ==>
                && Resolve(tables[t], h).Some? && o == Named(W(), t, h) && o in objs && objs[o].Vmo?
                && MapNeeds(prot) <= tables[t][Resolve(tables[t], h).value].rights
    {
      if prot == 0 || prot > 3 {
        return Invalid, 0;
      }
      st, o := Lookup(tables[t], objs, h, VMO, MapNeeds(prot)), 0;
      if st == Done {
        o := tables[t][Resolve(tables[t], h).value].obj.value;
      }
    }

    /** A mapping of a memory object.  `place` is what the checks of the address say, `mapped` what becomes of
        the page tables. */
    method MapVmo(t: nat, h: nat, prot: nat, place: Code, mapped: Code) returns (st: Code)
      requires Valid() && t in tables && Alive(t) in holders
      modifies `objs, `tables, `maps, `free, `holders, `popped, `issued, `bumps
      ensures Valid() && TableOk(old(tables)[t]) && t in old(maps) && st == MapCode(old(W()), t, h, prot, place, mapped)
      ensures st != Done ==> W() == old(W())
      ensures st == Done ==>
                && Resolve(old(tables)[t], h).Some? && Named(old(W()), t, h) in old(objs)
                && MapNeeds(prot) <= old(tables)[t][Resolve(old(tables)[t], h).value].rights
                && W() == MapAdded(old(W()), t, FirstNone(old(maps)[t], 0), Named(old(W()), t, h))
    {
      TheTask(W(), multiset{}, t);
      var o;
      st, o := Mappable(t, h, prot);
      if st != Done {
        return;
      }
      if place != Done {
        return place;
      }
      var i := FindMap(t);
      if i == |maps[t]| {
        return NoMemory;
      }
      if mapped == Done {
        AddMap(t, i, o);
      }
      return mapped;
    }

    method AddMap(t: nat, i: nat, o: nat)
      requires Valid() && o in objs && objs[o].Vmo? && Alive(t) in holders && t in maps && i < |maps[t]|
      requires maps[t][i].None?
      modifies `objs, `maps, `holders
      ensures Valid() && W() == MapAdded(old(W()), t, i, o)
    {
      MapKeeps(W(), t, i, o);
      objs, maps, holders := AddRef(objs, o), maps[t := maps[t][i := Some(o)]], holders[Mapped(t, i) := o];
    }

    /** The kernel itself gives out a handle: to an endpoint or a device at the start, or to a task through
        the sovereign object. */
    method Grant(t: nat, o: nat, rights: set<nat>) returns (st: Code, h: nat)
      requires Valid() && t in tables && Alive(t) in holders && o in objs
      modifies `objs, `tables, `maps, `free, `holders, `popped, `issued, `bumps
      ensures Valid()
      ensures st == if !(rights <= RIGHTS_ALL) then Invalid
                    else if FirstFree(old(tables)[t], 0) == |old(tables)[t]| then NoMemory else Done
      ensures st != Done ==> W() == old(W())
      ensures st == Done ==>
                var i := FirstFree(old(tables)[t], 0);
                o in old(issued) && W() == Installed(old(W()), t, i, o, rights, rights)
                && h == Encode(i, tables[t][i].gen)
    {
      TheKeys(W(), multiset{});
      st, h := Install(t, o, rights, rights, multiset{});
    }

    /** A handle to a task, for the holder of a handle to the sovereign object with that right. */
    method OpenTask(t: nat, sh: nat, target: nat, dead: bool) returns (st: Code, h: nat)
      requires Valid() && t in tables && Alive(t) in holders
      modifies `objs, `tables, `maps, `free, `holders, `popped, `issued, `bumps
      ensures Valid() && TableOk(old(tables)[t])
      ensures st == (var l := Lookup(old(tables)[t], old(objs), sh, SOV, {SOVEREIGN});
                     if l != Done then l else if target !in old(tables) then Invalid else if dead then Dead
                     else if FirstFree(old(tables)[t], 0) == |old(tables)[t]| then NoMemory else Done)
      ensures st != Done ==> W() == old(W())
      ensures st == Done ==>
                var i := FirstFree(old(tables)[t], 0);
                && target in old(objs) && target in old(issued) && Resolve(old(tables)[t], sh).Some?
                && SOVEREIGN in old(tables)[t][Resolve(old(tables)[t], sh).value].rights
                && W() == Installed(old(W()), t, i, target, TASK_RIGHTS, TASK_RIGHTS)
                && h == Encode(i, tables[t][i].gen)
    {
      TheTask(W(), multiset{}, t);
      st, h := Lookup(tables[t], objs, sh, SOV, {SOVEREIGN}), 0;
      if st != Done {
        return;
      }
      if target !in tables {
        return Invalid, 0;
      }
      if dead {
        return Dead, 0;
      }
      TheTask(W(), multiset{}, target);
      st, h := Grant(t, target, TASK_RIGHTS);
    }

    /** A new task, not yet reaped, with an empty table. */
    method MakeTask() returns (st: Code, t: nat)
      requires Ready()
      modifies this
      ensures Ready() && EP_POOL <= t <= TASK_POOL && (st == Done <==> t < TASK_POOL)
      ensures (st == NoMemory <==> t == TASK_POOL)
      ensures forall x | EP_POOL <= x < t :: x in old(objs)
      ensures st == Done ==> t !in old(objs) && W() == NewTask(old(W()), t) && alive == old(alive) + {t}
      ensures st != Done ==> W() == old(W()) && alive == old(alive)
    {
      t := FindPlace(EP_POOL, TASK_POOL);
      if t == TASK_POOL {
        return NoMemory, t;
      }
      TaskBorn(W(), t);
      objs, tables, maps := objs[t := Task(1)], tables[t := NewTable()], maps[t := seq(MAPS, i => None)];
      holders, issued := holders[Alive(t) := t], issued[t := {}];
      bumps, alive := bumps[t := seq(SLOTS, i => 0)], alive + {t};
      return Done, t;
    }

    /** A new endpoint that the kernel holds. */
    method MakeEndpoint() returns (st: Code, e: nat, ghost k: nat)
      requires Valid()
      modifies `objs, `tables, `maps, `free, `holders, `popped, `issued, `bumps
      ensures Valid() && VMO_POOL <= e <= EP_POOL && (st == Done <==> e < EP_POOL) && (st == NoMemory <==> e == EP_POOL)
      ensures forall x | VMO_POOL <= x < e :: x in old(objs)
      ensures st == Done ==> e !in old(objs) && Kept(k) !in old(holders) && W() == NewEndpoint(old(W()), e, k)
      ensures st != Done ==> W() == old(W())
    {
      k := 0;
      e := FindPlace(VMO_POOL, EP_POOL);
      if e == EP_POOL {
        st := NoMemory;
        return;
      }
      k := FreshKept(holders);
      EndpointBorn(W(), e, k);
      objs, holders := objs[e := Endpoint(1, [])], holders[Kept(k) := e];
      issued, popped := issued[e := {}], popped[e := 0];
      st := Done;
    }

    /** Slot i of a task that ends. */
    method CloseSlot(t: nat, i: nat)
      requires Valid() && t in tables && i < |tables[t]| && Alive(t) in holders
      modifies `objs, `tables, `maps, `free, `holders, `popped, `issued, `bumps
      ensures Valid() && t in tables && |tables[t]| == |old(tables)[t]| && tables[t][i].obj.None? && Calm(old(W()), W())
      ensures Shrinks(old(W()), W(), t)
      ensures forall j | 0 <= j < |tables[t]| && j != i :: tables[t][j] == old(tables)[t][j]
    {
      ghost var w0 := W();
      TheTask(w0, multiset{}, t);
      if tables[t][i].obj.Some? {
        var h := Encode(i, tables[t][i].gen);
        ResolveIff(tables[t], h, i);
        ghost var w1, o := Closed(w0, t, i), tables[t][i].obj.value;
        CalmClosed(w0, t, i);
        var st := Close(t, h);
        CalmLess(w1, W(), multiset{}, o);
        CalmTrans(w0, w1, W());
        assert LessKey(0, w1, W(), o);
        TheKeys(w0, multiset{});
        TheKeys(W(), multiset{});
        CloseOnly(w0, t, i);
        ShrinkSame(w0, w1, W(), o, Handle(t, i), t);
      } else {
        TheKeys(w0, multiset{});
        CalmSame(w0, w0);
        ShrinkNot(w0, t);
      }
    }

    /** A mapping and its reference go. */
    method Unmap(t: nat, i: nat)
      requires Valid() && t in maps && i < |maps[t]| && maps[t][i].Some?
      modifies `objs, `tables, `maps, `free, `holders, `popped, `issued, `bumps
      ensures Valid() && Less(MapDropped(old(W()), t, i), W(), old(maps)[t][i].value)
      ensures QueueKept(MapDropped(old(W()), t, i), W(), old(maps)[t][i].value)
    {
      var o := maps[t][i].value;
      UnmapKeeps(W(), multiset{}, t, i, o);
      maps, holders := maps[t := maps[t][i := None]], holders - {Mapped(t, i)};
      assert multiset{} + multiset{o} == multiset{o} && multiset{o} - multiset{o} == multiset{};
      TheGoing(W(), multiset{o}, o);
      Unref(o, multiset{o});
    }

    /** Mapping i of a task that ends. */
    method DropMap(t: nat, i: nat)
      requires Valid() && t in tables && t in maps && i < |maps[t]| && Alive(t) in holders
      modifies `objs, `tables, `maps, `free, `holders, `popped, `issued, `bumps
      ensures Valid() && t in tables && t in maps && tables[t] == old(tables)[t]
      ensures Calm(old(W()), W()) && Shrinks(old(W()), W(), t)
      ensures |maps[t]| == |old(maps)[t]| && maps[t][i].None?
      ensures forall j | 0 <= j < |maps[t]| && j != i :: maps[t][j] == old(maps)[t][j]
    {
      ghost var w0 := W();
      TheKeys(w0, multiset{});
      if maps[t][i].Some? {
        Unmap(t, i);
        Unmapped(w0, W(), t, i);
      } else {
        CalmSame(w0, w0);
        ShrinkNot(w0, t);
      }
    }

    /** All handles of a task that ends. */
    method ClearTable(t: nat)
      requires Valid() && t in tables && Alive(t) in holders
      modifies `objs, `tables, `maps, `free, `holders, `popped, `issued, `bumps
      ensures Valid() && t in tables && Calm(old(W()), W()) && Shrinks(old(W()), W(), t)
      ensures forall j | 0 <= j < |tables[t]| :: tables[t][j].obj.None?
    {
      ghost var w0 := W();
      TheKeys(w0, multiset{});
      CalmSame(w0, w0);
      ShrinkNot(w0, t);
      for i := 0 to SLOTS
        invariant Valid() && t in tables && Calm(w0, W()) && Shrinks(w0, W(), t)
        invariant forall j | 0 <= j < i && j < |tables[t]| :: tables[t][j].obj.None?
      {
        ghost var w1 := W();
        TheTask(w1, multiset{}, t);
        CalmHeld(w0, w1, t);
        CloseSlot(t, i);
        CalmTrans(w0, w1, W());
        ShrinkTrans(w0, w1, W(), t);
      }
      TheTask(W(), multiset{}, t);
    }

    /** All its mappings, too. */
    method Clear(t: nat)
      requires Valid() && t in tables && Alive(t) in holders
      modifies `objs, `tables, `maps, `free, `holders, `popped, `issued, `bumps
      ensures Valid() && t in tables && t in maps && Idle(tables[t], maps[t]) && Calm(old(W()), W())
      ensures Shrinks(old(W()), W(), t)
    {
      ghost var w0 := W();
      ClearTable(t);
      TheTask(W(), multiset{}, t);
      for i := 0 to MAPS
        invariant Valid() && t in tables && t in maps && Calm(w0, W()) && Shrinks(w0, W(), t)
        invariant forall j | 0 <= j < |tables[t]| :: tables[t][j].obj.None?
        invariant |maps[t]| == MAPS && forall j | 0 <= j < i :: maps[t][j].None?
      {
        ghost var w1 := W();
        CalmHeld(w0, w1, t);
        DropMap(t, i);
        CalmTrans(w0, w1, W());
        ShrinkTrans(w0, w1, W(), t);
      }
    }

    /** The reference goes that has kept a task until it was reaped. */
    method Bury(t: nat)
      requires Ready() && t in alive && t in tables && t in maps && Idle(tables[t], maps[t])
      modifies this
      ensures Ready() && alive == old(alive) - {t} && Shrinks(old(W()), W(), t) && Later(old(W()), W())
      ensures bumps.Keys <= old(bumps).Keys
      ensures forall i :: Handle(t, i) !in holders && Mapped(t, i) !in holders
    {
      ghost var w0 := W();
      LivingTask(w0, alive, t);
      IdleHolds(w0, t);
      ReapKeeps(w0, t);
      TheTask(w0, multiset{}, t);
      TheKeys(w0, multiset{});
      holders, alive := holders - {Alive(t)}, alive - {t};
      assert multiset{t} - multiset{t} == multiset{};
      ghost var w1 := W();
      assert OnlyAt(w0, w1, Alive(t));
      Unref(t, multiset{t});
      CalmLess(w1, W(), multiset{}, t);
      CalmAlive(w1, W(), alive);
      assert CalmKey(0, w1, W()) && LessKey(0, w1, W(), t);
      TheKeys(W(), multiset{});
      ShrinkSame(w0, w1, W(), t, Alive(t), t);
    }

    /** A task that has ended gives back everything. */
    method Reap(t: nat)
      requires Ready() && t in alive
      modifies this
      ensures Ready() && alive == old(alive) - {t} && Later(old(W()), W()) && Shrinks(old(W()), W(), t)
      ensures forall i :: Handle(t, i) !in holders && Mapped(t, i) !in holders
    {
      ghost var w := W();
      LivingTask(w, alive, t);
      Clear(t);
      ghost var w0 := W();
      CalmAlive(w, w0, alive);
      CalmHeld(w, w0, t);
      Bury(t);
      LaterTrans(w, w0, W());
      ShrinkTrans(w, w0, W(), t);
    }

    /** A task made by the holder of the sovereign object, and a handle to it. */
    method Spawn(t: nat, sh: nat) returns (st: Code, h: nat, ghost n: nat)
      requires Ready() && t in alive
      modifies this
      ensures Ready() && Later(old(W()), W()) && t in old(tables) && TableOk(old(tables)[t])
      ensures st == SpawnCode(old(W()), t, sh)
      ensures st != Done ==> alive == old(alive) && W() == old(W())
      ensures st == Done ==> Spawned(old(W()), W(), t, n, h) && alive == old(alive) + {n}
      ensures st == Done ==>
                && Resolve(old(tables)[t], sh).Some?
                && SOVEREIGN in old(tables)[t][Resolve(old(tables)[t], sh).value].rights
    {
      ghost var w0 := W();
      n := 0;
      LivingTask(w0, alive, t);
      TheTask(w0, multiset{}, t);
      st, h := Lookup(tables[t], objs, sh, SOV, {SOVEREIGN}), 0;
      if st != Done {
        return;
      }
      var i := FindFree(t);
      if i == |tables[t]| {
        st := NoMemory;
        return;
      }
      st, h, n := Launch(t);
    }

    method Launch(t: nat) returns (st: Code, h: nat, ghost n: nat)
      requires Ready() && t in alive && t in tables && FirstFree(tables[t], 0) < |tables[t]|
      modifies this
      ensures Ready() && Later(old(W()), W())
      ensures st == if forall x: nat | EP_POOL <= x < TASK_POOL :: x in old(objs) then NoMemory else Done
      ensures st != Done ==> alive == old(alive) && W() == old(W())
      ensures st == Done ==> Spawned(old(W()), W(), t, n, h) && alive == old(alive) + {n}
    {
      ghost var w0 := W();
      var o;
      h := 0;
      st, o := MakeTask();
      n := o;
      if st == Done {
        ghost var w1, i := W(), FirstFree(w0.tables[t], 0);
        TheTable(w0, t, o);
        LivingTask(w1, alive, t);
        st, h := Grant(t, o, TASK_RIGHTS);
        CalmInstalled(w1, t, i, o, TASK_RIGHTS, TASK_RIGHTS);
        CalmAlive(w1, W(), alive);
        NewTaskLater(w0, W(), o);
      }
    }
  }
}
