/** What each kernel call does, which rights come into being by it, and which handle values it ends. */
module CapabilitySteps {
  import opened Common
  import opened Handles
  import opened References
  import opened Capabilities

  /** What a task asks of the kernel, and what the kernel does of itself.  Outcomes that depend on memory
      the model does not have (a buffer that cannot be read, an address that cannot be mapped) are given. */
  datatype Call =
    | CallClose(t: nat, h: nat)
    | CallDup(t: nat, h: nat, rights: set<nat>)
    | CallSend(t: nat, eh: nat, data: seq<Byte>, fault: bool, h: nat, rights: set<nat>)
    | CallReceive(t: nat, eh: nat, cap: nat, usable: bool)
    | CallVmo(t: nat, n: nat)
    | CallMap(t: nat, h: nat, prot: nat, place: Code, mapped: Code)
    | CallOpen(t: nat, sh: nat, target: nat, dead: bool)
    | CallSpawn(t: nat, sh: nat)
    | Boot
    | BootConnect(s: nat, r: nat)
    | BootDevice(t: nat, device: nat)
    | End(t: nat)

  /** What the caller gets: a code, a handle value, and a message. */
  datatype Answer = Answer(st: Code, h: nat, m: Option<Msg>)

  function Just(st: Code): Answer {
    Answer(st, 0, None)
  }

  /** The rights there are to an object of each kind. */
  function Allowed(o: Object): set<nat> {
    match o
    case Vmo(_, _) => VMO_RIGHTS
    case Task(_) => TASK_RIGHTS
    case Endpoint(_, _) => {SEND, RECV}
    case Static(_, kind) => if kind == 0 then {SOVEREIGN} else {READ, WRITE}
  }

  // ---- what a call does ----

  /** The task is there and has not been reaped. */
  ghost predicate Lives(w: World, t: nat) {
    && Alive(t) in w.holders && t in w.tables && t in w.maps && t in w.bumps
    && TableOk(w.tables[t]) && |w.bumps[t]| == SLOTS
  }

  ghost predicate DidClose(w: World, w': World, t: nat, h: nat, y: Answer)
    requires Lives(w, t)
  {
    match Resolve(w.tables[t], h)
    case None => y == Just(BadHandle) && w' == w
    case Some(i) =>
      && y == Just(Done) && Less(Closed(w, t, i), w', w.tables[t][i].obj.value)
      && QueueKept(w, w', w.tables[t][i].obj.value)
  }

  ghost predicate DidDup(w: World, w': World, t: nat, h: nat, rights: set<nat>, y: Answer)
    requires Lives(w, t)
  {
    var st := DupCode(w, t, h, rights);
    if st != Done then y == Just(st) && w' == w
    else
      var o, j := Named(w, t, h), FirstFree(w.tables[t], 0);
      && o in w.objs && o in w.issued && y == Answer(Done, Encode(j, w.tables[t][j].gen), None)
      && w' == Installed(w, t, j, o, rights, {})
  }

  ghost predicate DidSend(w: World, w': World, c: Call, y: Answer)
    requires c.CallSend? && Lives(w, c.t)
  {
    var st := SendCode(w, c.t, c.eh, c.data, c.fault, c.h, c.rights);
    y == Just(st) && if st != Done then w' == w else Sent(w, w', c.t, c.eh, c.data, c.h, c.rights)
  }

  ghost predicate DidReceive(w: World, w': World, t: nat, eh: nat, cap: nat, usable: bool, y: Answer)
    requires Lives(w, t)
  {
    var st := ReceiveCode(w, t, eh, cap, usable);
    if st != Done then y == Just(st) && w' == w
    else y.st == Done && y.m.Some? && Received(w, w', t, eh, y.m.value, y.h)
  }

  ghost predicate DidVmo(w: World, w': World, t: nat, n: nat, y: Answer)
    requires Lives(w, t)
  {
    && (y.st == Done || y.st == Invalid || y.st == NoMemory) && (y.st == Invalid <==> n == 0 || n > VMO_PAGES)
    && (y.st == NoMemory ==>
          || FirstFree(w.tables[t], 0) == SLOTS || |w.free| < n
          || forall o: nat | o < VMO_POOL :: o in w.objs)
    && if y.st == Done then VmoMade(w, w', t, n, y.h) else w' == w
  }

  ghost predicate DidMap(w: World, w': World, c: Call, y: Answer)
    requires c.CallMap? && Lives(w, c.t)
  {
    var st := MapCode(w, c.t, c.h, c.prot, c.place, c.mapped);
    && y == Just(st)
    && if st != Done then w' == w
       else
         && Resolve(w.tables[c.t], c.h).Some? && Named(w, c.t, c.h) in w.objs
         && w' == MapAdded(w, c.t, FirstNone(w.maps[c.t], 0), Named(w, c.t, c.h))
  }

  /** The kernel has given t a handle to o, if there was room. */
  ghost predicate Given(w: World, w': World, t: nat, o: nat, rights: set<nat>, y: Answer)
    requires Lives(w, t)
  {
    var j := FirstFree(w.tables[t], 0);
    if j == SLOTS then y == Just(NoMemory) && w' == w
    else
      && o in w.objs && o in w.issued && y == Answer(Done, Encode(j, w.tables[t][j].gen), None)
      && w' == Installed(w, t, j, o, rights, rights)
  }

  /** Slot sh of t is a handle to the sovereign object, with its right. */
  ghost predicate Sovereign(w: World, t: nat, sh: nat)
    requires Lives(w, t)
  {
    Lookup(w.tables[t], w.objs, sh, SOV, {SOVEREIGN}) == Done
  }

  ghost predicate DidOpen(w: World, w': World, c: Call, y: Answer)
    requires c.CallOpen? && Lives(w, c.t)
  {
    if !Sovereign(w, c.t, c.sh) then y == Just(Lookup(w.tables[c.t], w.objs, c.sh, SOV, {SOVEREIGN})) && w' == w
    else if c.target !in w.tables then y == Just(Invalid) && w' == w
    else if c.dead then y == Just(Dead) && w' == w
    else Given(w, w', c.t, c.target, TASK_RIGHTS, y)
  }

  ghost predicate DidSpawn(w: World, w': World, t: nat, sh: nat, y: Answer)
    requires Lives(w, t)
  {
    && y.st == SpawnCode(w, t, sh) && y.m == None
    && if y.st == Done then exists n: nat :: Spawned(w, w', t, n, y.h) else w' == w
  }

  ghost predicate DidBoot(w: World, w': World, y: Answer) {
    || (y == Just(NoMemory) && w' == w && forall x: nat | EP_POOL <= x < TASK_POOL :: x in w.objs)
    || (y == Just(Done) && exists n: nat :: n !in w.objs && w' == NewTask(w, n))
  }

  /** Endpoint e is new; s sends to it and r receives, if they have room for the handles (behind a key). */
  ghost predicate Linked(w: World, w': World, s: nat, r: nat, e: nat, n: nat, w1: World, w2: World, y1: Answer,
                         y2: Answer) {
    forall k {:trigger DidKey(k, w, w', BootConnect(s, r))} :: DidKey(k, w, w', BootConnect(s, r)) ==>
      Links(w, w', s, r, e, n, w1, w2, y1, y2)
  }

  ghost predicate Links(w: World, w': World, s: nat, r: nat, e: nat, n: nat, w1: World, w2: World, y1: Answer,
                        y2: Answer) {
    && e !in w.objs && Kept(n) !in w.holders && Lives(NewEndpoint(w, e, n), s)
    && Given(NewEndpoint(w, e, n), w1, s, e, {SEND}, y1)
    && Lives(w1, r) && Given(w1, w2, r, e, {RECV}, y2) && Less(w2.(holders := w2.holders - {Kept(n)}), w', e)
  }

  ghost predicate DidConnect(w: World, w': World, s: nat, r: nat, y: Answer) {
    || (y == Just(NoMemory) && w' == w && forall x: nat | VMO_POOL <= x < EP_POOL :: x in w.objs)
    || (y == Just(Done) &&
        exists e: nat, n: nat, w1: World, w2: World, y1: Answer, y2: Answer ::
          Linked(w, w', s, r, e, n, w1, w2, y1, y2))
  }

  ghost predicate DidDevice(w: World, w': World, t: nat, device: nat, y: Answer)
    requires Lives(w, t)
  {
    if device !in w.objs || !w.objs[device].Static? then y == Just(Invalid) && w' == w
    else Given(w, w', t, device, Allowed(w.objs[device]), y)
  }

  ghost predicate DidEnd(w: World, w': World, t: nat, y: Answer) {
    y == Just(Done) && Shrinks(w, w', t) && Alive(t) !in w'.holders
    && forall i :: Handle(t, i) !in w'.holders && Mapped(t, i) !in w'.holders
  }

  /** One call, from one state of the kernel to the next; a task that has been reaped makes none. */
  ghost predicate Did(w: World, w': World, c: Call, y: Answer) {
    match c
    case Boot => DidBoot(w, w', y)
    case BootConnect(s, r) =>
      if Lives(w, s) && Lives(w, r) then DidConnect(w, w', s, r, y) else w' == w && y == Just(Dead)
    case _ => if Lives(w, c.t) then Served(w, w', c, y) else w' == w && y == Just(Dead)
  }

  ghost predicate DidKey(k: nat, w: World, w': World, c: Call) {
    true
  }

  /** What is done for a task that has not been reaped (behind a key). */
  ghost predicate Served(w: World, w': World, c: Call, y: Answer)
    requires !c.Boot? && !c.BootConnect? && Lives(w, c.t)
  {
    forall k {:trigger DidKey(k, w, w', c)} :: DidKey(k, w, w', c) ==> DidFor(w, w', c, y)
  }

  ghost predicate DidFor(w: World, w': World, c: Call, y: Answer)
    requires !c.Boot? && !c.BootConnect? && Lives(w, c.t)
  {
    match c
    case CallClose(t, h) => DidClose(w, w', t, h, y)
    case CallDup(t, h, rights) => DidDup(w, w', t, h, rights, y)
    case CallSend(_, _, _, _, _, _) => DidSend(w, w', c, y)
    case CallReceive(t, eh, cap, usable) => DidReceive(w, w', t, eh, cap, usable, y)
    case CallVmo(t, n) => DidVmo(w, w', t, n, y)
    case CallMap(_, _, _, _, _) => DidMap(w, w', c, y)
    case CallOpen(_, _, _, _) => DidOpen(w, w', c, y)
    case CallSpawn(t, sh) => DidSpawn(w, w', t, sh, y)
    case BootDevice(t, device) => DidDevice(w, w', t, device, y)
    case End(t) => DidEnd(w, w', t, y)
  }

  // ---- who has which right ----

  /** Some handle or message has this right to the object. */
  ghost predicate Someone(w: World, o: nat, r: nat) {
    exists h :: Look(h) && h in w.holders && w.holders[h] == o && r in RightsAt(w, h)
  }

  /** Nobody has come to have a right, but these rights to o. */
  ghost predicate Gains(w: World, w': World, o: nat, g: set<nat>) {
    forall x, r {:trigger Someone(w', x, r)} :: Someone(w', x, r) ==> Someone(w, x, r) || (x == o && r in g)
  }

  lemma GainsTrans(w: World, w1: World, w2: World, o: nat, g: set<nat>, g': set<nat>)
    requires Gains(w, w1, o, g) && Gains(w1, w2, o, g')
    ensures Gains(w, w2, o, g + g')
  {
    forall x, r | Someone(w2, x, r) ensures Someone(w, x, r) || (x == o && r in g + g') {
      assert Someone(w1, x, r) || (x == o && r in g');
    }
  }

  /** Nothing is gained where every holder has what it had. */
  lemma GainsRetained(w: World, w': World, o: nat)
    requires Retained(w, w')
    ensures Gains(w, w', o, {})
  {
    forall x, r | Someone(w', x, r) ensures Someone(w, x, r) {
      var h :| Look(h) && h in w'.holders && w'.holders[h] == x && r in RightsAt(w', h);
      assert Look(h) && h in w.holders && w.holders[h] == x && r in RightsAt(w, h);
    }
  }

  lemma GainsLess(w: World, w': World, p: nat, o: nat)
    requires Less(w, w', p)
    ensures Gains(w, w', o, {})
  {
    assert LessKey(0, w, w', p);
    GainsRetained(w, w', o);
  }

  /** One holder has changed: what it has now is what there is to gain. */
  lemma GainsOnly(w: World, w': World, h: Holder, o: nat, g: set<nat>)
    requires OnlyAt(w, w', h) && (h in w'.holders ==> w'.holders[h] == o && RightsAt(w', h) <= g)
    ensures Gains(w, w', o, g)
  {
    forall x, r | Someone(w', x, r) ensures Someone(w, x, r) || (x == o && r in g) {
      var k :| Look(k) && k in w'.holders && w'.holders[k] == x && r in RightsAt(w', k);
      if k != h {
        assert Look(k) && k in w.holders && w.holders[k] == x && r in RightsAt(w, k);
      }
    }
  }

  /** Rights that somebody had are no gain. */
  lemma GainsHeld(w: World, w': World, o: nat, g: set<nat>, h: Holder)
    requires Gains(w, w', o, g) && h in w.holders && w.holders[h] == o && g <= RightsAt(w, h)
    ensures Gains(w, w', o, {})
  {
    forall x, r | Someone(w', x, r) ensures Someone(w, x, r) {
      if x == o && r in g {
        assert Look(h) && h in w.holders && w.holders[h] == o && r in RightsAt(w, h);
      }
    }
  }

  lemma GainsInstalled(w: World, t: nat, i: nat, o: nat, rights: set<nat>, given: set<nat>)
    requires o in w.objs && t in w.tables && i < |w.tables[t]| && o in w.issued
    ensures Gains(w, Installed(w, t, i, o, rights, given), o, rights)
  {
    InstallOnly(w, t, i, o, rights, given);
    GainsOnly(w, Installed(w, t, i, o, rights, given), Handle(t, i), o, rights);
  }

  lemma GainsClosed(w: World, t: nat, i: nat, o: nat)
    requires t in w.tables && i < |w.tables[t]| && t in w.bumps && i < |w.bumps[t]|
    ensures Gains(w, Closed(w, t, i), o, {})
  {
    CloseOnly(w, t, i);
    GainsOnly(w, Closed(w, t, i), Handle(t, i), o, {});
  }

  lemma GainsDup(w: World, w': World, t: nat, h: nat, rights: set<nat>, y: Answer)
    requires Inv(w, multiset{}) && Lives(w, t) && DidDup(w, w', t, h, rights, y)
    ensures Gains(w, w', 0, {})
  {
    if DupCode(w, t, h, rights) == Done {
      var i, j := Resolve(w.tables[t], h).value, FirstFree(w.tables[t], 0);
      var o := Named(w, t, h);
      TheSlot(w, multiset{}, t, i);
      GainsInstalled(w, t, j, o, rights, {});
      GainsHeld(w, w', o, rights, Handle(t, i));
    }
  }

  /** The message has no right that the handle it was made from had not. */
  lemma GainsSend(w: World, w': World, c: Call, y: Answer)
    requires Inv(w, multiset{}) && c.CallSend? && Lives(w, c.t) && DidSend(w, w', c, y)
    ensures Gains(w, w', 0, {})
  {
    if y.st == Done {
      var e := Named(w, c.t, c.eh);
      var q := Queued(e, w.popped[e] + |w.objs[e].queue|);
      PushOnly(w, e, Msg(c.data, c.t, None, {}));
      NoHolder(w, multiset{}, q);
      if c.h == 0 {
        GainsOnly(w, w', q, 0, {});
      } else {
        var i := Resolve(w.tables[c.t], c.h).value;
        var o, w1 := Named(w, c.t, c.h), Closed(w, c.t, i);
        TheSlot(w, multiset{}, c.t, i);
        GainsClosed(w, c.t, i, o);
        PushOnly(w1, e, Msg(c.data, c.t, Some(o), c.rights));
        GainsOnly(w1, w', q, o, c.rights);
        GainsTrans(w, w1, w', o, {}, c.rights);
        assert {} + c.rights == c.rights;
        GainsHeld(w, w', o, c.rights, Handle(c.t, i));
      }
    }
  }

  lemma GainsPopped(w: World, e: nat, o: nat)
    requires e in w.objs && w.objs[e].Endpoint? && e in w.popped && w.objs[e].queue != [] && o in w.objs && o != e
    requires w.objs[o].refs > 0
    ensures Gains(w, Dropped(Popped(w, e), o), o, {})
  {
    var w1 := Popped(w, e);
    var w2 := Dropped(w1, o);
    PopOnly(w, e);
    RetainedOnly(w, w1, Queued(e, w.popped[e]));
    assert Retained(w1, w2);
    GainsRetained(w, w1, o);
    GainsRetained(w1, w2, o);
    GainsTrans(w, w1, w2, o, {}, {});
  }

  /** The new handle has the rights that the message had. */
  lemma GainsReceive(w: World, w': World, t: nat, eh: nat, m: Msg, h: nat)
    requires Inv(w, multiset{}) && Lives(w, t) && Received(w, w', t, eh, m, h)
    ensures Gains(w, w', 0, {})
  {
    var e := Named(w, t, eh);
    var q := Queued(e, w.popped[e]);
    PopFirst(w, e);
    if m.obj.None? {
      NoHolder(w, multiset{}, q);
      PopOnly(w, e);
      GainsOnly(w, w', q, 0, {});
    } else {
      var o, i := m.obj.value, FirstFree(w.tables[t], 0);
      var w1 := Installed(w, t, i, o, m.rights, {});
      TheObject(w, multiset{}, q);
      GainsInstalled(w, t, i, o, m.rights, {});
      GainsHeld(w, w1, o, m.rights, q);
      GainsPopped(w1, e, o);
      GainsTrans(w, w1, w', o, {}, {});
    }
  }

  lemma GainsVmo(w: World, w': World, t: nat, n: nat, h: nat, o: nat)
    requires t in w.tables && VmoAt(w, w', t, n, h, o)
    ensures Gains(w, w', o, VMO_RIGHTS)
  {
    var k := Handle(t, FirstFree(w.tables[t], 0));
    forall g | Look(g) && g != k ensures Found(w', g) == Found(w, g) && RightsAt(w', g) == RightsAt(w, g) {
      if g.Queued? {
        assert MsgAt(w', g.ep, g.no) == MsgAt(w, g.ep, g.no);
      }
    }
    GainsOnly(w, w', k, o, VMO_RIGHTS);
  }

  lemma GainsMap(w: World, w': World, c: Call, y: Answer)
    requires Inv(w, multiset{}) && c.CallMap? && Lives(w, c.t) && DidMap(w, w', c, y)
    ensures Gains(w, w', 0, {})
  {
    if y.st == Done {
      var i, o := FirstNone(w.maps[c.t], 0), Named(w, c.t, c.h);
      MapOnly(w, c.t, i, o);
      GainsOnly(w, w', Mapped(c.t, i), o, {});
    }
  }

  lemma GainsGiven(w: World, w': World, t: nat, o: nat, rights: set<nat>, y: Answer)
    requires Lives(w, t) && Given(w, w', t, o, rights, y)
    ensures Gains(w, w', o, rights)
  {
    if FirstFree(w.tables[t], 0) < SLOTS {
      GainsInstalled(w, t, FirstFree(w.tables[t], 0), o, rights, rights);
    }
  }

  lemma GainsTask(w: World, n: nat, o: nat)
    requires Inv(w, multiset{}) && n !in w.objs
    ensures Gains(w, NewTask(w, n), o, {})
  {
    TheKeys(w, multiset{});
    NewTaskOk(w, multiset{}, n);
    TaskIsBorn(w, n);
    GainsOnly(w, NewTask(w, n), Alive(n), n, {});
  }

  lemma GainsSpawn(w: World, w': World, t: nat, n: nat, h: nat)
    requires Inv(w, multiset{}) && Spawned(w, w', t, n, h)
    ensures Gains(w, w', n, TASK_RIGHTS)
  {
    GainsTask(w, n, n);
    GainsInstalled(NewTask(w, n), t, FirstFree(w.tables[t], 0), n, TASK_RIGHTS, TASK_RIGHTS);
    GainsTrans(w, NewTask(w, n), w', n, {}, TASK_RIGHTS);
    assert {} + TASK_RIGHTS == TASK_RIGHTS;
  }

  lemma GainsWider(w: World, w': World, o: nat, g: set<nat>, g': set<nat>)
    requires Gains(w, w', o, g) && g <= g'
    ensures Gains(w, w', o, g')
  {
  }

  lemma GainsBoth(w: World, w1: World, w2: World, o: nat, g: set<nat>)
    requires Gains(w, w1, o, g) && Gains(w1, w2, o, g)
    ensures Gains(w, w2, o, g)
  {
    GainsTrans(w, w1, w2, o, g, g);
    assert g + g == g;
  }

  lemma GainsBorn(w: World, e: nat, n: nat, g: set<nat>)
    requires Inv(w, multiset{}) && e !in w.objs && Kept(n) !in w.holders
    ensures Gains(w, NewEndpoint(w, e, n), e, g)
  {
    TheKeys(w, multiset{});
    EndpointIsBorn(w, e, n);
    GainsOnly(w, NewEndpoint(w, e, n), Kept(n), e, g);
  }

  lemma GainsLetGo(w: World, w': World, e: nat, n: nat, g: set<nat>)
    requires Less(w.(holders := w.holders - {Kept(n)}), w', e)
    ensures Gains(w, w', e, g)
  {
    var w1 := w.(holders := w.holders - {Kept(n)});
    assert Retained(w, w1);
    GainsRetained(w, w1, e);
    GainsLess(w1, w', e, e);
    GainsBoth(w, w1, w', e, {});
    GainsWider(w, w', e, {}, g);
  }

  lemma GainsLinked(w: World, w': World, s: nat, r: nat, e: nat, n: nat, w1: World, w2: World, y1: Answer, y2: Answer)
    requires Inv(w, multiset{}) && Links(w, w', s, r, e, n, w1, w2, y1, y2)
    ensures Gains(w, w', e, {SEND, RECV})
  {
    var w0, g := NewEndpoint(w, e, n), {SEND, RECV};
    GainsBorn(w, e, n, g);
    GainsGiven(w0, w1, s, e, {SEND}, y1);
    GainsWider(w0, w1, e, {SEND}, g);
    GainsGiven(w1, w2, r, e, {RECV}, y2);
    GainsWider(w1, w2, e, {RECV}, g);
    GainsLetGo(w2, w', e, n, g);
    GainsBoth(w, w0, w1, e, g);
    GainsBoth(w, w1, w2, e, g);
    GainsBoth(w, w2, w', e, g);
  }

  /** The rights to o that the kernel gives out by a call: to who makes a memory object or, with the sovereign
      right, a task; to who opens a task with that right; and at the start. */
  ghost function Grants(w: World, c: Call, o: nat): set<nat> {
    match c
    case CallVmo(_, _) => if o !in w.objs then VMO_RIGHTS else {}
    case CallOpen(t, sh, target, _) => if o == target && Lives(w, t) && Sovereign(w, t, sh) then TASK_RIGHTS else {}
    case CallSpawn(t, sh) => if o !in w.objs && Lives(w, t) && Sovereign(w, t, sh) then TASK_RIGHTS else {}
    case BootConnect(_, _) => if o !in w.objs then {SEND, RECV} else {}
    case BootDevice(_, device) => if o == device && o in w.objs then Allowed(w.objs[o]) else {}
    case _ => {}
  }

  /** No right comes into being but those that the kernel gives out. */
  ghost predicate OnlyGranted(w: World, w': World, c: Call) {
    forall x, r {:trigger Someone(w', x, r)} :: Someone(w', x, r) ==> Someone(w, x, r) || r in Grants(w, c, x)
  }

  lemma GrantedBy(w: World, w': World, c: Call, o: nat, g: set<nat>)
    requires Gains(w, w', o, g) && g <= Grants(w, c, o)
    ensures OnlyGranted(w, w', c)
  {
    forall x, r | Someone(w', x, r) ensures Someone(w, x, r) || r in Grants(w, c, x) {
    }
  }

  lemma GainsClose(w: World, w': World, t: nat, i: nat, o: nat)
    requires Lives(w, t) && i < SLOTS && Less(Closed(w, t, i), w', o)
    ensures Gains(w, w', 0, {})
  {
    GainsClosed(w, t, i, 0);
    GainsLess(Closed(w, t, i), w', o, 0);
    GainsBoth(w, Closed(w, t, i), w', 0, {});
  }

  lemma GainsEnd(w: World, w': World, t: nat)
    requires Shrinks(w, w', t)
    ensures Gains(w, w', 0, {})
  {
    assert ShrinkKey(0, w, w');
    GainsRetained(w, w', 0);
  }

  lemma GainsMade(w: World, w': World, c: Call, y: Answer)
    requires Inv(w, multiset{}) && (c.CallVmo? || c.CallSpawn?) && Lives(w, c.t) && DidFor(w, w', c, y)
    ensures OnlyGranted(w, w', c)
  {
    if y.st == Done && c.CallVmo? {
      var o: nat :| o < VMO_POOL && VmoAt(w, w', c.t, c.n, y.h, o);
      GainsVmo(w, w', c.t, c.n, y.h, o);
      GrantedBy(w, w', c, o, VMO_RIGHTS);
    } else if y.st == Done {
      var n: nat :| Spawned(w, w', c.t, n, y.h);
      GainsSpawn(w, w', c.t, n, y.h);
      GrantedBy(w, w', c, n, TASK_RIGHTS);
    }
  }

  lemma GainsCalls(w: World, w': World, c: Call, y: Answer)
    requires Inv(w, multiset{}) && !c.Boot? && !c.BootConnect? && Lives(w, c.t) && Served(w, w', c, y)
    ensures OnlyGranted(w, w', c)
  {
    assert DidKey(0, w, w', c);
    match c {
      case CallClose(t, h) =>
        if Resolve(w.tables[t], h).Some? {
          var i := Resolve(w.tables[t], h).value;
          GainsClose(w, w', t, i, w.tables[t][i].obj.value);
        }
      case CallDup(t, h, rights) => GainsDup(w, w', t, h, rights, y);
      case CallSend(_, _, _, _, _, _) => GainsSend(w, w', c, y);
      case CallReceive(t, eh, cap, usable) =>
        if y.st == Done {
          GainsReceive(w, w', t, eh, y.m.value, y.h);
        }
      case CallVmo(_, _) => GainsMade(w, w', c, y);
      case CallMap(_, _, _, _, _) => GainsMap(w, w', c, y);
      case CallOpen(_, _, _, _) =>
        if Sovereign(w, c.t, c.sh) && c.target in w.tables && !c.dead {
          GainsGiven(w, w', c.t, c.target, TASK_RIGHTS, y);
          GrantedBy(w, w', c, c.target, TASK_RIGHTS);
        }
      case CallSpawn(_, _) => GainsMade(w, w', c, y);
      case BootDevice(t, device) =>
        if device in w.objs && w.objs[device].Static? {
          GainsGiven(w, w', t, device, Allowed(w.objs[device]), y);
          GrantedBy(w, w', c, device, Allowed(w.objs[device]));
        }
      case End(t) => GainsEnd(w, w', t);
    }
  }

  lemma GrantedLinks(w: World, w': World, s: nat, r: nat, e: nat, n: nat, w1: World, w2: World, y1: Answer, y2: Answer)
    requires Inv(w, multiset{}) && Links(w, w', s, r, e, n, w1, w2, y1, y2)
    ensures OnlyGranted(w, w', BootConnect(s, r))
  {
    GainsLinked(w, w', s, r, e, n, w1, w2, y1, y2);
    GrantedBy(w, w', BootConnect(s, r), e, {SEND, RECV});
  }

  lemma GainsConnect(w: World, w': World, s: nat, r: nat, y: Answer)
    requires Inv(w, multiset{}) && DidConnect(w, w', s, r, y)
    ensures OnlyGranted(w, w', BootConnect(s, r))
  {
    if y.st == Done {
      var e: nat, n: nat, w1: World, w2: World, y1: Answer, y2: Answer :| Linked(w, w', s, r, e, n, w1, w2, y1, y2);
      assert DidKey(0, w, w', BootConnect(s, r));
      GrantedLinks(w, w', s, r, e, n, w1, w2, y1, y2);
    }
  }

  lemma StepGains(w: World, w': World, c: Call, y: Answer)
    requires Inv(w, multiset{}) && Did(w, w', c, y)
    ensures OnlyGranted(w, w', c)
  {
    match c {
      case Boot =>
        if y.st == Done {
          var n: nat :| n !in w.objs && w' == NewTask(w, n);
          GainsTask(w, n, 0);
        }
      case BootConnect(s, r) =>
        if Lives(w, s) && Lives(w, r) {
          GainsConnect(w, w', s, r, y);
        }
      case _ =>
        if Lives(w, c.t) {
          GainsCalls(w, w', c, y);
        }
    }
  }

  // ---- which values stop resolving ----

  /** A slot is closed or moved at most once in a step, and then its generation changes. */
  ghost predicate Ages(w: World, w': World, t: nat)
    requires Lives(w, t) && Lives(w', t)
  {
    forall i | 0 <= i < SLOTS :: w'.bumps[t][i] == w.bumps[t][i] || w'.bumps[t][i] == w.bumps[t][i] + 1
  }

  lemma AgesClose(w: World, w': World, t: nat, i: nat, o: nat, u: nat)
    requires Lives(w, t) && i < SLOTS && Less(Closed(w, t, i), w', o) && Lives(w, u) && Lives(w', u)
    ensures Ages(w, w', u) && (u == t ==> w'.bumps[t][i] == w.bumps[t][i] + 1)
  {
    assert LessKey(0, Closed(w, t, i), w', o);
  }

  lemma AgesSend(w: World, w': World, c: Call, y: Answer, u: nat)
    requires c.CallSend? && Lives(w, c.t) && DidSend(w, w', c, y) && Lives(w, u) && Lives(w', u)
    ensures Ages(w, w', u)
    ensures y.st == Done && c.h != 0 && u == c.t ==>
              var i := Resolve(w.tables[u], c.h).value; w'.bumps[u][i] == w.bumps[u][i] + 1
  {
  }

  lemma AgesCalls(w: World, w': World, c: Call, y: Answer, u: nat)
    requires c.CallClose? || c.CallSend? || c.CallSpawn? || c.End?
    requires Inv(w, multiset{}) && Lives(w, c.t) && Served(w, w', c, y) && Lives(w, u) && Lives(w', u)
    ensures Ages(w, w', u)
  {
    assert DidKey(0, w, w', c);
    match c {
      case CallClose(t, h) =>
        if Resolve(w.tables[t], h).Some? {
          var i := Resolve(w.tables[t], h).value;
          AgesClose(w, w', t, i, w.tables[t][i].obj.value, u);
        }
      case CallSend(_, _, _, _, _, _) => AgesSend(w, w', c, y, u);
      case CallSpawn(t, sh) =>
        if y.st == Done {
          var n: nat :| Spawned(w, w', t, n, y.h);
          TheTable(w, u, n);
        }
      case End(_) => assert ShrinkKey(0, w, w');
    }
  }

  /** The other calls close nothing. */
  lemma AgesNot(w: World, w': World, c: Call, y: Answer, u: nat)
    requires c.CallDup? || c.CallReceive? || c.CallVmo? || c.CallMap? || c.CallOpen? || c.BootDevice?
    requires Lives(w, c.t) && Served(w, w', c, y) && Lives(w, u) && Lives(w', u)
    ensures Ages(w, w', u)
  {
    assert DidKey(0, w, w', c);
  }

  lemma AgesTask(w: World, n: nat, u: nat)
    requires Inv(w, multiset{}) && n !in w.objs && Lives(w, u) && Lives(NewTask(w, n), u)
    ensures Ages(w, NewTask(w, n), u)
  {
    TheTable(w, u, n);
  }

  lemma AgesLinks(w: World, w': World, s: nat, r: nat, e: nat, n: nat, w1: World, w2: World, y1: Answer, y2: Answer,
                  u: nat)
    requires Links(w, w', s, r, e, n, w1, w2, y1, y2) && Lives(w, u) && Lives(w', u)
    ensures Ages(w, w', u)
  {
    assert LessKey(0, w2.(holders := w2.holders - {Kept(n)}), w', e);
  }

  lemma AgesConnect(w: World, w': World, s: nat, r: nat, y: Answer, u: nat)
    requires DidConnect(w, w', s, r, y) && Lives(w, u) && Lives(w', u)
    ensures Ages(w, w', u)
  {
    if y.st == Done {
      var e: nat, n: nat, w1: World, w2: World, y1: Answer, y2: Answer :| Linked(w, w', s, r, e, n, w1, w2, y1, y2);
      assert DidKey(0, w, w', BootConnect(s, r));
      AgesLinks(w, w', s, r, e, n, w1, w2, y1, y2, u);
    }
  }

  lemma StepAges(w: World, w': World, c: Call, y: Answer, u: nat)
    requires Inv(w, multiset{}) && Did(w, w', c, y) && Lives(w, u) && Lives(w', u)
    ensures Ages(w, w', u)
  {
    match c {
      case Boot =>
        if y.st == Done {
          var n: nat :| n !in w.objs && w' == NewTask(w, n);
          AgesTask(w, n, u);
        }
      case BootConnect(s, r) =>
        if Lives(w, s) && Lives(w, r) {
          AgesConnect(w, w', s, r, y, u);
        }
      case _ =>
        if Lives(w, c.t) {
          if c.CallClose? || c.CallSend? || c.CallSpawn? || c.End? {
            AgesCalls(w, w', c, y, u);
          } else {
            AgesNot(w, w', c, y, u);
          }
        }
    }
  }

  /** The value that a call has closed or moved, if it has. */
  function Spent(c: Call, y: Answer): Option<(nat, nat)> {
    if y.st != Done then None
    else if c.CallClose? then Some((c.t, c.h))
    else if c.CallSend? && c.h != 0 then Some((c.t, c.h))
    else None
  }

  /** Its slot has been closed or moved once more. */
  lemma SpentAges(w: World, w': World, c: Call, y: Answer, t: nat, h: nat)
    requires Did(w, w', c, y) && Spent(c, y) == Some((t, h)) && Lives(w', t)
    ensures Lives(w, t) && Resolve(w.tables[t], h).Some?
    ensures var i := Resolve(w.tables[t], h).value; i < SLOTS && w'.bumps[t][i] == w.bumps[t][i] + 1
  {
    assert DidKey(0, w, w', c);
    if c.CallClose? {
      var i := Resolve(w.tables[t], h).value;
      AgesClose(w, w', t, i, w.tables[t][i].obj.value, t);
    } else {
      AgesSend(w, w', c, y, t);
    }
  }
}
