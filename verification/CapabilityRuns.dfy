/** Every run of kernel calls: what the counts, the rights and the handle values are at each moment of it. */
module CapabilityRuns {
  import opened Common
  import opened Handles
  import opened References
  import opened Capabilities
  import opened CapabilitySteps

  ghost predicate TameKey(k: nat, w: World) {
    true
  }

  /** The kernel gives out no others (behind a key). */
  ghost predicate Tame(w: World) {
    forall k {:trigger TameKey(k, w)} :: TameKey(k, w) ==>
      forall o | o in w.objs && o in w.issued :: w.issued[o] <= Allowed(w.objs[o])
  }

  /** No handle has a right that its kind of object does not have. */
  lemma RightsBound(w: World, t: nat, i: nat)
    requires Inv(w, multiset{}) && Tame(w) && Taken(w, t, i)
    ensures w.tables[t][i].obj.value in w.objs && w.tables[t][i].rights <= Allowed(w.objs[w.tables[t][i].obj.value])
  {
    TheSlot(w, multiset{}, t, i);
    assert TameKey(0, w);
  }

  lemma TameInstalled(w: World, t: nat, i: nat, o: nat, rights: set<nat>, given: set<nat>)
    requires Tame(w) && o in w.objs && t in w.tables && i < |w.tables[t]| && o in w.issued
    requires given <= Allowed(w.objs[o])
    ensures Tame(Installed(w, t, i, o, rights, given))
  {
    assert TameKey(0, w);
  }

  lemma TameLess(w: World, w': World, o: nat)
    requires Tame(w) && Less(w, w', o)
    ensures Tame(w')
  {
    assert TameKey(0, w) && LessKey(0, w, w', o);
    forall x | x in w'.objs && x in w'.issued ensures w'.issued[x] <= Allowed(w'.objs[x]) {
      assert SameKind(w.objs[x], w'.objs[x]);
    }
  }

  /** What has been given out is as it was. */
  lemma TameSame(w: World, w': World)
    requires Tame(w) && SameKinds(w, w') && w'.issued == w.issued
    ensures Tame(w')
  {
    assert TameKey(0, w);
    forall x | x in w'.objs && x in w'.issued ensures w'.issued[x] <= Allowed(w'.objs[x]) {
      assert SameKind(w.objs[x], w'.objs[x]);
    }
  }

  /** One object more. */
  lemma TameNew(w: World, w': World, o: nat, given: set<nat>)
    requires Tame(w) && o in w'.objs && w'.objs == w.objs[o := w'.objs[o]] && w'.issued == w.issued[o := given]
    requires given <= Allowed(w'.objs[o])
    ensures Tame(w')
  {
    assert TameKey(0, w);
  }

  ghost predicate Good(k: Kernel)
    reads k
  {
    k.Ready() && Tame(k.W())
  }

  lemma AliveLives(k: Kernel, t: nat)
    requires Good(k)
    ensures t in k.alive <==> Lives(k.W(), t)
  {
    if t in k.alive {
      LivingTask(k.W(), k.alive, t);
      TheTask(k.W(), multiset{}, t);
    } else {
      assert Alive(t) !in k.W().holders;
    }
  }

  method DoClose(k: Kernel, t: nat, h: nat) returns (y: Answer)
    requires Good(k) && t in k.alive && Lives(k.W(), t)
    modifies k
    ensures Good(k) && DidClose(old(k.W()), k.W(), t, h, y)
  {
    ghost var w := k.W();
    var st := k.Close(t, h);
    y := Just(st);
    if st == Done {
      ghost var i := Resolve(w.tables[t], h).value;
      ghost var w1, o := Closed(w, t, i), w.tables[t][i].obj.value;
      CalmClosed(w, t, i);
      CalmLess(w1, k.W(), multiset{}, o);
      CalmTrans(w, w1, k.W());
      TameSame(w, w1);
      TameLess(w1, k.W(), o);
    } else {
      CalmSame(w, k.W());
    }
    CalmAlive(w, k.W(), k.alive);
  }

  method DoDup(k: Kernel, t: nat, h: nat, rights: set<nat>) returns (y: Answer)
    requires Good(k) && t in k.alive && Lives(k.W(), t)
    modifies k
    ensures Good(k) && DidDup(old(k.W()), k.W(), t, h, rights, y)
  {
    ghost var w := k.W();
    var st, h' := k.Dup(t, h, rights);
    y := if st == Done then Answer(Done, h', None) else Just(st);
    if st == Done {
      ghost var j, o := FirstFree(w.tables[t], 0), Named(w, t, h);
      CalmInstalled(w, t, j, o, rights, {});
      TameInstalled(w, t, j, o, rights, {});
    } else {
      CalmSame(w, k.W());
    }
    CalmAlive(w, k.W(), k.alive);
  }

  method DoSend(k: Kernel, c: Call) returns (y: Answer)
    requires Good(k) && c.CallSend? && c.t in k.alive && Lives(k.W(), c.t)
    modifies k
    ensures Good(k) && DidSend(old(k.W()), k.W(), c, y)
  {
    ghost var w := k.W();
    var t, eh, data, h, rights := c.t, c.eh, c.data, c.h, c.rights;
    var st := k.Send(t, eh, data, c.fault, h, rights);
    y := Just(st);
    if st == Done {
      ghost var e := Named(w, t, eh);
      ghost var w1 := if h == 0 then w else Closed(w, t, Resolve(w.tables[t], h).value);
      ghost var m := if h == 0 then Msg(data, t, None, {}) else Msg(data, t, Some(Named(w, t, h)), rights);
      CalmPushed(w1, e, m);
      PushOnly(w1, e, m);
      if h == 0 {
        CalmSame(w, w1);
      } else {
        CalmClosed(w, t, Resolve(w.tables[t], h).value);
      }
      CalmTrans(w, w1, k.W());
      TameSame(w, w1);
      TameSame(w1, k.W());
    } else {
      CalmSame(w, k.W());
    }
    CalmAlive(w, k.W(), k.alive);
  }

  method DoReceive(k: Kernel, t: nat, eh: nat, cap: nat, usable: bool) returns (y: Answer)
    requires Good(k) && t in k.alive && Lives(k.W(), t)
    modifies k
    ensures Good(k) && DidReceive(old(k.W()), k.W(), t, eh, cap, usable, y)
  {
    ghost var w := k.W();
    var st, m, h := k.Receive(t, eh, cap, usable);
    y := if st == Done then Answer(Done, h, Some(m)) else Just(st);
    CalmSame(w, k.W());
    if st == Done {
      ghost var e := Named(w, t, eh);
      ghost var w1 := if m.obj.None? then w else Installed(w, t, FirstFree(w.tables[t], 0), m.obj.value, m.rights, {});
      if m.obj.Some? {
        TameInstalled(w, t, FirstFree(w.tables[t], 0), m.obj.value, m.rights, {});
      }
      PopFirst(w1, e);
      TameSame(w1, Popped(w1, e));
      TameSame(Popped(w1, e), k.W());
    }
    CalmAlive(w, k.W(), k.alive);
  }

  method DoVmo(k: Kernel, t: nat, n: nat) returns (y: Answer)
    requires Good(k) && t in k.alive && Lives(k.W(), t)
    modifies k
    ensures Good(k) && DidVmo(old(k.W()), k.W(), t, n, y)
  {
    ghost var w := k.W();
    var st, h := k.CreateVmo(t, n);
    y := Answer(st, h, None);
    CalmSame(w, k.W());
    if st == Done {
      ghost var o: nat :| o < VMO_POOL && VmoAt(w, k.W(), t, n, h, o);
      TameNew(w, k.W(), o, VMO_RIGHTS);
    } else {
      TameSame(w, k.W());
    }
    CalmAlive(w, k.W(), k.alive);
  }

  method DoMap(k: Kernel, c: Call) returns (y: Answer)
    requires Good(k) && c.CallMap? && c.t in k.alive && Lives(k.W(), c.t)
    modifies k
    ensures Good(k) && DidMap(old(k.W()), k.W(), c, y)
  {
    ghost var w := k.W();
    var st := k.MapVmo(c.t, c.h, c.prot, c.place, c.mapped);
    y := Just(st);
    CalmSame(w, k.W());
    TameSame(w, k.W());
    CalmAlive(w, k.W(), k.alive);
  }

  method DoOpen(k: Kernel, c: Call) returns (y: Answer)
    requires Good(k) && c.CallOpen? && c.t in k.alive && Lives(k.W(), c.t)
    modifies k
    ensures Good(k) && DidOpen(old(k.W()), k.W(), c, y)
  {
    ghost var w := k.W();
    var t, target := c.t, c.target;
    if target in k.tables {
      TheTask(w, multiset{}, target);
    }
    var st, h := k.OpenTask(t, c.sh, target, c.dead);
    y := if st == Done then Answer(Done, h, None) else Just(st);
    if st == Done {
      CalmInstalled(w, t, FirstFree(w.tables[t], 0), target, TASK_RIGHTS, TASK_RIGHTS);
      TameInstalled(w, t, FirstFree(w.tables[t], 0), target, TASK_RIGHTS, TASK_RIGHTS);
    } else {
      CalmSame(w, k.W());
    }
    CalmAlive(w, k.W(), k.alive);
  }

  /** A handle to the sovereign object or to a device. */
  method DoDevice(k: Kernel, t: nat, device: nat) returns (y: Answer)
    requires Good(k) && t in k.alive && Lives(k.W(), t)
    modifies k
    ensures Good(k) && DidDevice(old(k.W()), k.W(), t, device, y)
  {
    ghost var w := k.W();
    y := Just(Invalid);
    if device in k.objs && k.objs[device].Static? {
      var rights := Allowed(k.objs[device]);
      var st, h := k.Grant(t, device, rights);
      y := if st == Done then Answer(Done, h, None) else Just(st);
      if st == Done {
        CalmInstalled(w, t, FirstFree(w.tables[t], 0), device, rights, rights);
        TameInstalled(w, t, FirstFree(w.tables[t], 0), device, rights, rights);
      } else {
        CalmSame(w, k.W());
      }
      CalmAlive(w, k.W(), k.alive);
    }
  }

  /** Objects gone. */
  lemma TameShrinks(w: World, w': World, t: nat)
    requires Tame(w) && Shrinks(w, w', t)
    ensures Tame(w')
  {
    assert TameKey(0, w) && ShrinkKey(0, w, w');
    forall x | x in w'.objs && x in w'.issued ensures w'.issued[x] <= Allowed(w'.objs[x]) {
      assert SameKind(w.objs[x], w'.objs[x]);
    }
  }

  lemma TameTask(w: World, n: nat)
    requires Tame(w)
    ensures Tame(NewTask(w, n))
  {
    assert TameKey(0, w);
  }

  method DoSpawn(k: Kernel, t: nat, sh: nat) returns (y: Answer)
    requires Good(k) && t in k.alive && Lives(k.W(), t)
    modifies k
    ensures Good(k) && DidSpawn(old(k.W()), k.W(), t, sh, y)
  {
    ghost var w := k.W();
    var st, h;
    ghost var n;
    st, h, n := k.Spawn(t, sh);
    y := Answer(st, h, None);
    if st == Done {
      TameTask(w, n);
      TameInstalled(NewTask(w, n), t, FirstFree(w.tables[t], 0), n, TASK_RIGHTS, TASK_RIGHTS);
    }
  }

  method DoBoot(k: Kernel) returns (y: Answer)
    requires Good(k)
    modifies k
    ensures Good(k) && DidBoot(old(k.W()), k.W(), y)
  {
    ghost var w := k.W();
    var st, t := k.MakeTask();
    y := Just(st);
    if st == Done {
      TameTask(w, t);
    }
  }

  method DoEnd(k: Kernel, t: nat) returns (y: Answer)
    requires Good(k) && t in k.alive
    modifies k
    ensures Good(k) && DidEnd(old(k.W()), k.W(), t, y)
  {
    ghost var w := k.W();
    k.Reap(t);
    y := Just(Done);
    TameShrinks(w, k.W(), t);
    assert Alive(t) !in k.holders;
  }

  /** A handle to an endpoint that the kernel holds, if there is room. */
  method Give(k: Kernel, t: nat, e: nat, rights: set<nat>, ghost n: nat) returns (y: Answer)
    requires Good(k) && t in k.alive && Lives(k.W(), t) && e in k.objs && rights <= Allowed(k.objs[e])
    requires Kept(n) in k.holders && k.holders[Kept(n)] == e
    modifies k
    ensures Good(k) && k.alive == old(k.alive) && Calm(old(k.W()), k.W()) && Given(old(k.W()), k.W(), t, e, rights, y)
    ensures e in k.objs && SameKind(old(k.objs)[e], k.objs[e]) && Kept(n) in k.holders && k.holders[Kept(n)] == e
  {
    ghost var w := k.W();
    var st, h := k.Grant(t, e, rights);
    y := if st == Done then Answer(Done, h, None) else Just(st);
    if st == Done {
      CalmInstalled(w, t, FirstFree(w.tables[t], 0), e, rights, rights);
      TameInstalled(w, t, FirstFree(w.tables[t], 0), e, rights, rights);
    } else {
      CalmSame(w, k.W());
    }
    CalmAlive(w, k.W(), k.alive);
  }

  /** The kernel lets go of a new endpoint. */
  method Release(k: Kernel, e: nat, ghost n: nat)
    requires Good(k) && Kept(n) in k.holders && k.holders[Kept(n)] == e
    modifies k
    ensures Good(k) && Less(old(k.W()).(holders := old(k.holders) - {Kept(n)}), k.W(), e)
  {
    ghost var w, w1 := k.W(), k.W().(holders := k.holders - {Kept(n)});
    TameSame(w, w1);
    CalmSame(w, w1);
    k.LetGo(n, e);
    TameLess(w1, k.W(), e);
    CalmLess(w1, k.W(), multiset{}, e);
    CalmTrans(w, w1, k.W());
    CalmAlive(w, k.W(), k.alive);
  }

  /** A new endpoint, one task sending to it and one receiving. */
  method DoConnect(k: Kernel, s: nat, r: nat) returns (y: Answer)
    requires Good(k) && s in k.alive && r in k.alive
    modifies k
    ensures Good(k) && DidConnect(old(k.W()), k.W(), s, r, y)
  {
    ghost var w := k.W();
    y := Just(NoMemory);
    var st, e;
    ghost var n;
    st, e, n := k.MakeEndpoint();
    ghost var w1 := k.W();
    CalmSame(w, w1);
    CalmAlive(w, w1, k.alive);
    if st == Done {
      TameNew(w, w1, e, {});
      AliveLives(k, s);
      var y1 := Give(k, s, e, {SEND}, n);
      ghost var w2 := k.W();
      AliveLives(k, r);
      var y2 := Give(k, r, e, {RECV}, n);
      ghost var w3 := k.W();
      Release(k, e, n);
      y := Just(Done);
      assert Linked(w, k.W(), s, r, e, n, w2, w3, y1, y2);
    }
  }

  /** A call of a task that has not been reaped. */
  method ServeTask(k: Kernel, c: Call) returns (y: Answer)
    requires Good(k) && !c.Boot? && !c.BootConnect? && c.t in k.alive && Lives(k.W(), c.t)
    modifies k
    ensures Good(k) && DidFor(old(k.W()), k.W(), c, y)
  {
    match c {
      case CallClose(t, h) => y := DoClose(k, t, h);
      case CallDup(t, h, rights) => y := DoDup(k, t, h, rights);
      case CallSend(_, _, _, _, _, _) => y := DoSend(k, c);
      case CallReceive(t, eh, cap, usable) => y := DoReceive(k, t, eh, cap, usable);
      case CallVmo(t, n) => y := DoVmo(k, t, n);
      case CallMap(_, _, _, _, _) => y := DoMap(k, c);
      case CallOpen(_, _, _, _) => y := DoOpen(k, c);
      case CallSpawn(t, sh) => y := DoSpawn(k, t, sh);
      case BootDevice(t, device) => y := DoDevice(k, t, device);
      case End(t) => y := DoEnd(k, t);
    }
  }

  /** One call. */
  method Serve(k: Kernel, c: Call) returns (y: Answer)
    requires Good(k)
    modifies k
    ensures Good(k) && Did(old(k.W()), k.W(), c, y)
  {
    y := Just(Dead);
    match c {
      case Boot => y := DoBoot(k);
      case BootConnect(s, r) =>
        AliveLives(k, s);
        AliveLives(k, r);
        if s in k.alive && r in k.alive {
          y := DoConnect(k, s, r);
        }
      case _ =>
        AliveLives(k, c.t);
        if c.t in k.alive {
          y := ServeTask(k, c);
        }
    }
  }

  // ---- whole runs ----

  ghost predicate Sound(w: World) {
    Inv(w, multiset{}) && Tame(w)
  }

  /** From the i-th moment to the next is one call. */
  ghost predicate StepAt(trail: seq<World>, calls: seq<Call>, answers: seq<Answer>, i: nat)
    requires i < |calls| == |answers| < |trail|
  {
    Sound(trail[i]) && Sound(trail[i + 1]) && Did(trail[i], trail[i + 1], calls[i], answers[i])
  }

  /** The states of the kernel in a run, each one call after the other. */
  ghost predicate Course(trail: seq<World>, calls: seq<Call>, answers: seq<Answer>) {
    && |calls| == |answers| && |trail| == |calls| + 1 && Sound(trail[0])
    && forall i | 0 <= i < |calls| :: StepAt(trail, calls, answers, i)
  }

  lemma CourseMore(trail: seq<World>, calls: seq<Call>, answers: seq<Answer>, w: World, c: Call, y: Answer)
    requires Course(trail, calls, answers) && Sound(trail[|calls|]) && Sound(w) && Did(trail[|calls|], w, c, y)
    ensures Course(trail + [w], calls + [c], answers + [y])
  {
    var trail', calls', answers' := trail + [w], calls + [c], answers + [y];
    forall i | 0 <= i < |calls'| ensures StepAt(trail', calls', answers', i) {
      assert i < |calls| ==> StepAt(trail, calls, answers, i);
    }
  }

  lemma SoundAt(trail: seq<World>, calls: seq<Call>, answers: seq<Answer>, i: nat)
    requires Course(trail, calls, answers) && i < |trail|
    ensures Sound(trail[i])
  {
    assert i > 0 ==> StepAt(trail, calls, answers, i - 1);
  }

  /** The calls are served one after the other, and every moment is sound. */
  method Run(k: Kernel, calls: seq<Call>) returns (answers: seq<Answer>, ghost trail: seq<World>)
    requires Good(k)
    modifies k
    ensures Good(k) && Course(trail, calls, answers) && trail[0] == old(k.W()) && trail[|calls|] == k.W()
  {
    answers, trail := [], [k.W()];
    for i := 0 to |calls|
      invariant Good(k) && Course(trail, calls[..i], answers) && trail[0] == old(k.W()) && trail[i] == k.W()
    {
      var y := Serve(k, calls[i]);
      CourseMore(trail, calls[..i], answers, k.W(), calls[i], y);
      assert calls[..i] + [calls[i]] == calls[..i + 1];
      answers, trail := answers + [y], trail + [k.W()];
    }
    assert calls[..|calls|] == calls;
  }

  /** The memory object is there, and none of its pages is free. */
  ghost predicate Backed(w: World, o: nat) {
    o in w.objs && w.objs[o].Vmo? && forall p <- w.objs[o].pages :: p !in w.free
  }

  /** At every moment: each count is the number of holders, no page of a mapped memory object is free, and no
      handle has a right that its kind of object does not have. */
  lemma Always(w: World)
    requires Sound(w)
    ensures forall o | o in w.objs :: w.objs[o].refs == |RefsOf(w.holders, o)|
    ensures forall t, i: nat | t in w.maps && i < |w.maps[t]| && w.maps[t][i].Some? :: Backed(w, w.maps[t][i].value)
    ensures forall t, i: nat | Taken(w, t, i) ::
              w.tables[t][i].obj.value in w.objs && w.tables[t][i].rights <= Allowed(w.objs[w.tables[t][i].obj.value])
  {
    OpenCounts(w, multiset{});
    forall t, i: nat | t in w.maps && i < |w.maps[t]| && w.maps[t][i].Some? ensures Backed(w, w.maps[t][i].value) {
      MappedStays(w, t, i, w.maps[t][i].value);
    }
    forall t, i: nat | Taken(w, t, i)
      ensures w.tables[t][i].obj.value in w.objs && w.tables[t][i].rights <= Allowed(w.objs[w.tables[t][i].obj.value])
    {
      RightsBound(w, t, i);
    }
  }

  /** The kernel has given out right r to o in one of the calls from the i-th on. */
  ghost predicate GrantedIn(trail: seq<World>, calls: seq<Call>, i: nat, j: nat, o: nat, r: nat)
    requires i <= j <= |calls| < |trail|
  {
    exists k | i <= k < j :: r in Grants(trail[k], calls[k], o)
  }

  /** A right that some handle or message has, and that none had before, is one that the kernel has given out
      in between. */
  lemma {:induction false} RightsOverRun(trail: seq<World>, calls: seq<Call>, answers: seq<Answer>, i: nat, j: nat,
                                         o: nat, r: nat)
    requires Course(trail, calls, answers) && i <= j <= |calls| && Someone(trail[j], o, r)
    ensures Someone(trail[i], o, r) || GrantedIn(trail, calls, i, j, o, r)
  {
    if i < j {
      assert StepAt(trail, calls, answers, j - 1);
      StepGains(trail[j - 1], trail[j], calls[j - 1], answers[j - 1]);
      if r !in Grants(trail[j - 1], calls[j - 1], o) {
        RightsOverRun(trail, calls, answers, i, j - 1, o, r);
      }
    }
  }

  function GenAt(w: World, t: nat, s: nat): nat {
    if t in w.tables && s < |w.tables[t]| then w.tables[t][s].gen else 0
  }

  /** How often slot s of t has been closed or moved between two moments. */
  ghost function Closings(trail: seq<World>, t: nat, s: nat, i: nat, j: nat): (n: nat)
    requires i <= j < |trail|
    ensures n <= j - i
  {
    if i == j then 0
    else Closings(trail, t, s, i, j - 1) + (if GenAt(trail[j], t, s) != GenAt(trail[j - 1], t, s) then 1 else 0)
  }

  lemma GenMoves(b: nat)
    ensures GenOf(b + 1) != GenOf(b)
  {
    BumpGen(b);
  }

  lemma {:induction false} BumpsCount(trail: seq<World>, calls: seq<Call>, answers: seq<Answer>, i: nat, j: nat, t: nat,
                                      s: nat)
    requires Course(trail, calls, answers) && i <= j <= |calls| && s < SLOTS
    requires forall k | i <= k <= j :: Lives(trail[k], t)
    ensures Lives(trail[i], t) && Lives(trail[j], t)
    ensures trail[j].bumps[t][s] == trail[i].bumps[t][s] + Closings(trail, t, s, i, j)
  {
    assert Lives(trail[i], t) && Lives(trail[j], t);
    if i < j {
      BumpsCount(trail, calls, answers, i, j - 1, t, s);
      assert StepAt(trail, calls, answers, j - 1);
      StepAges(trail[j - 1], trail[j], calls[j - 1], answers[j - 1], t);
      TheTask(trail[j - 1], multiset{}, t);
      TheTask(trail[j], multiset{}, t);
      GenMoves(trail[j - 1].bumps[t][s]);
    }
  }

  /** A value that has been closed, or moved with a message, names something again only if its slot is taken
      and has been closed or moved a multiple of GEN_MAX times since then; so it names nothing as long as
      there have been fewer calls, and its task lives. */
  lemma StaleOverRun(trail: seq<World>, calls: seq<Call>, answers: seq<Answer>, i: nat, j: nat, t: nat, h: nat)
    requires Course(trail, calls, answers) && i < j <= |calls| && (forall k | i <= k <= j :: Lives(trail[k], t))
    requires Spent(calls[i], answers[i]) == Some((t, h))
    ensures Lives(trail[i], t) && Lives(trail[j], t) && Resolve(trail[i].tables[t], h).Some?
    ensures var s := Resolve(trail[i].tables[t], h).value;
            Resolve(trail[j].tables[t], h).Some? <==>
              trail[j].tables[t][s].obj.Some? && Closings(trail, t, s, i, j) % GEN_MAX == 0
    ensures var s := Resolve(trail[i].tables[t], h).value; 0 < Closings(trail, t, s, i, j)
    ensures var s := Resolve(trail[i].tables[t], h).value;
            Closings(trail, t, s, i, j) < GEN_MAX ==> Resolve(trail[j].tables[t], h) == None
    ensures j - i < GEN_MAX ==> Resolve(trail[j].tables[t], h) == None
  {
    assert Lives(trail[i], t) && Lives(trail[j], t);
    SpentAt(trail, calls, answers, i, t, h);
    var s := Resolve(trail[i].tables[t], h).value;
    SoundAt(trail, calls, answers, j);
    BumpsCount(trail, calls, answers, i, j, t, s);
    BumpsCount(trail, calls, answers, i + 1, j, t, s);
    StaleValue(trail[j], t, s, trail[i].bumps[t][s]);
  }

  /** The slot that a value named when it was closed or moved. */
  lemma SpentAt(trail: seq<World>, calls: seq<Call>, answers: seq<Answer>, i: nat, t: nat, h: nat)
    requires Course(trail, calls, answers) && i < |calls| && Spent(calls[i], answers[i]) == Some((t, h))
    requires Lives(trail[i + 1], t)
    ensures Lives(trail[i], t) && Resolve(trail[i].tables[t], h).Some?
    ensures var s := Resolve(trail[i].tables[t], h).value;
            && s < SLOTS && trail[i + 1].bumps[t][s] == trail[i].bumps[t][s] + 1
            && h == Encode(s, GenOf(trail[i].bumps[t][s]))
  {
    assert StepAt(trail, calls, answers, i);
    SpentAges(trail[i], trail[i + 1], calls[i], answers[i], t, h);
    TheTask(trail[i], multiset{}, t);
    ResolveIff(trail[i].tables[t], h, Resolve(trail[i].tables[t], h).value);
  }

  /** A value given out when its slot had been closed or moved b times, later. */
  lemma StaleValue(w: World, t: nat, s: nat, b: nat)
    requires Sound(w) && Lives(w, t) && s < SLOTS && b <= w.bumps[t][s]
    ensures Resolve(w.tables[t], Encode(s, GenOf(b))).Some? <==>
              w.tables[t][s].obj.Some? && (w.bumps[t][s] - b) % GEN_MAX == 0
    ensures b < w.bumps[t][s] < b + GEN_MAX ==> Resolve(w.tables[t], Encode(s, GenOf(b))) == None
  {
    TheTask(w, multiset{}, t);
    StaleIff(w.tables[t], s, b, w.bumps[t][s]);
  }
}
