/** Which right each call needs, told from the slot its handle value names; and the messages of an endpoint
    over a run: they enter only by a SEND handle, leave only by a RECV handle, and none is lost or made up. */
module CapabilityQueues {
  import opened Common
  import opened Handles
  import opened References
  import opened Capabilities
  import opened CapabilitySteps
  import opened CapabilityRuns

  // ---- rights ----

  /** Value h of task t names a slot that holds o with right r. */
  ghost predicate HasRight(w: World, t: nat, h: nat, o: nat, r: nat) {
    && t in w.tables && TableOk(w.tables[t]) && Resolve(w.tables[t], h).Some?
    && w.tables[t][Resolve(w.tables[t], h).value].obj == Some(o)
    && r in w.tables[t][Resolve(w.tables[t], h).value].rights
  }

  /** The slot that h names has all these rights. */
  ghost predicate Within(w: World, t: nat, h: nat, rights: set<nat>) {
    forall r | r in rights :: exists o :: HasRight(w, t, h, o, r)
  }

  ghost predicate IsEndpoint(w: World, e: nat) {
    e in w.objs && w.objs[e].Endpoint?
  }

  /** The caller has the rights that the call needs. */
  ghost predicate Licensed(w: World, c: Call) {
    match c
    case CallDup(t, h, rights) => (exists o :: HasRight(w, t, h, o, DUPLICATE)) && Within(w, t, h, rights)
    case CallSend(t, eh, _, _, h, rights) =>
      && (exists e :: IsEndpoint(w, e) && HasRight(w, t, eh, e, SEND))
      && (h != 0 ==> (exists o :: HasRight(w, t, h, o, TRANSFER)) && Within(w, t, h, rights))
    case CallReceive(t, eh, _, _) => exists e :: IsEndpoint(w, e) && HasRight(w, t, eh, e, RECV)
    case CallMap(t, h, prot, _, _) =>
      exists o :: o in w.objs && w.objs[o].Vmo? && HasRight(w, t, h, o, MAP) && HasRight(w, t, h, o, READ)
                  && (prot >= 2 ==> HasRight(w, t, h, o, WRITE))
    case CallOpen(t, sh, _, _) =>
      exists o :: o in w.objs && w.objs[o].Static? && w.objs[o].kind == 0 && HasRight(w, t, sh, o, SOVEREIGN)
    case CallSpawn(t, sh) =>
      exists o :: o in w.objs && w.objs[o].Static? && w.objs[o].kind == 0 && HasRight(w, t, sh, o, SOVEREIGN)
    case _ => true
  }

  lemma SlotObjects(w: World, t: nat)
    requires Inv(w, multiset{}) && Lives(w, t)
    ensures forall i | 0 <= i < SLOTS && w.tables[t][i].obj.Some? :: w.tables[t][i].obj.value in w.objs
  {
    forall i | 0 <= i < SLOTS && w.tables[t][i].obj.Some? ensures w.tables[t][i].obj.value in w.objs {
      TheSlot(w, multiset{}, t, i);
    }
  }

  lemma RightsOfSlot(w: World, t: nat, h: nat, rights: set<nat>)
    requires Lives(w, t) && Resolve(w.tables[t], h).Some?
    ensures w.tables[t][Resolve(w.tables[t], h).value].obj.Some?
    ensures Within(w, t, h, rights) <==> rights <= w.tables[t][Resolve(w.tables[t], h).value].rights
  {
    var i := Resolve(w.tables[t], h).value;
    forall r | r in rights ensures (exists o :: HasRight(w, t, h, o, r)) <==> r in w.tables[t][i].rights {
      assert HasRight(w, t, h, w.tables[t][i].obj.value, r) <==> r in w.tables[t][i].rights;
    }
  }

  /** What Lookup says about a handle, by its right. */
  lemma RightFromSlot(w: World, t: nat, h: nat, kind: nat, need: set<nat>, r: nat)
    requires Inv(w, multiset{}) && Lives(w, t) && r in need
    ensures var st := Lookup(w.tables[t], w.objs, h, kind, need);
            && (st == Done ==>
                  && Resolve(w.tables[t], h).Some? && Named(w, t, h) in w.objs
                  && HasRight(w, t, h, Named(w, t, h), r)
                  && (kind == ANY || TypeOf(w.objs[Named(w, t, h)]) == kind))
            && (st == NoAccess && need == {r} ==> forall o :: !HasRight(w, t, h, o, r))
  {
    SlotObjects(w, t);
    LookupIff(w.tables[t], w.objs, h, kind, need);
  }

  lemma DupLicensed(w: World, t: nat, h: nat, rights: set<nat>)
    requires Inv(w, multiset{}) && Lives(w, t)
    ensures var st := DupCode(w, t, h, rights);
            (st == Done ==> Licensed(w, CallDup(t, h, rights)))
            && (st == NoAccess ==> !Licensed(w, CallDup(t, h, rights)))
  {
    RightFromSlot(w, t, h, ANY, {DUPLICATE}, DUPLICATE);
    if Resolve(w.tables[t], h).Some? {
      RightsOfSlot(w, t, h, rights);
    }
  }

  lemma SendLicensed(w: World, c: Call)
    requires Inv(w, multiset{}) && c.CallSend? && Lives(w, c.t)
    ensures var st := SendCode(w, c.t, c.eh, c.data, c.fault, c.h, c.rights);
            (st == Done ==> Licensed(w, c)) && (st == NoAccess ==> !Licensed(w, c))
  {
    RightFromSlot(w, c.t, c.eh, ENDPOINT, {SEND}, SEND);
    RightFromSlot(w, c.t, c.h, ANY, {TRANSFER}, TRANSFER);
    if Resolve(w.tables[c.t], c.h).Some? {
      RightsOfSlot(w, c.t, c.h, c.rights);
    }
    if Lookup(w.tables[c.t], w.objs, c.eh, ENDPOINT, {SEND}) == Done {
      assert IsEndpoint(w, Named(w, c.t, c.eh)) && HasRight(w, c.t, c.eh, Named(w, c.t, c.eh), SEND);
    }
  }

  lemma ReceiveLicensed(w: World, c: Call)
    requires Inv(w, multiset{}) && c.CallReceive? && Lives(w, c.t)
    ensures var st := ReceiveCode(w, c.t, c.eh, c.cap, c.usable);
            (st == Done ==> Licensed(w, c)) && (st == NoAccess ==> !Licensed(w, c))
  {
    RightFromSlot(w, c.t, c.eh, ENDPOINT, {RECV}, RECV);
    if Lookup(w.tables[c.t], w.objs, c.eh, ENDPOINT, {RECV}) == Done {
      assert IsEndpoint(w, Named(w, c.t, c.eh)) && HasRight(w, c.t, c.eh, Named(w, c.t, c.eh), RECV);
    }
  }

  lemma MapLicensed(w: World, c: Call)
    requires Inv(w, multiset{}) && c.CallMap? && Lives(w, c.t)
    ensures MapCode(w, c.t, c.h, c.prot, c.place, c.mapped) == Done ==> Licensed(w, c)
  {
    if MapCode(w, c.t, c.h, c.prot, c.place, c.mapped) == Done {
      RightFromSlot(w, c.t, c.h, VMO, MapNeeds(c.prot), MAP);
      RightFromSlot(w, c.t, c.h, VMO, MapNeeds(c.prot), READ);
      if c.prot >= 2 {
        RightFromSlot(w, c.t, c.h, VMO, MapNeeds(c.prot), WRITE);
      }
    }
  }

  lemma SovereignLicensed(w: World, t: nat, sh: nat, c: Call)
    requires Inv(w, multiset{}) && Lives(w, t) && ((c.CallOpen? && c.t == t && c.sh == sh) || c == CallSpawn(t, sh))
    ensures var st := Lookup(w.tables[t], w.objs, sh, SOV, {SOVEREIGN});
            (st == Done ==> Licensed(w, c)) && (st == NoAccess ==> !Licensed(w, c))
  {
    RightFromSlot(w, t, sh, SOV, {SOVEREIGN}, SOVEREIGN);
  }

  /** Whatever call is carried out, the slots its values name have the rights it needs; and where access is
      refused, one of them is missing. */
  lemma Authorized(w: World, w': World, c: Call, y: Answer)
    requires Inv(w, multiset{}) && Did(w, w', c, y) && !c.Boot? && !c.BootConnect? && Lives(w, c.t)
    ensures y.st == Done ==> Licensed(w, c)
    ensures y.st == NoAccess && !c.CallMap? ==> !Licensed(w, c)
  {
    if c.CallDup? || c.CallSend? || c.CallReceive? {
      AuthorizedMessages(w, w', c, y);
    } else {
      AuthorizedOthers(w, w', c, y);
    }
  }

  lemma AuthorizedMessages(w: World, w': World, c: Call, y: Answer)
    requires Inv(w, multiset{}) && (c.CallDup? || c.CallSend? || c.CallReceive?) && Lives(w, c.t) && Served(w, w', c, y)
    ensures (y.st == Done ==> Licensed(w, c)) && (y.st == NoAccess ==> !Licensed(w, c))
  {
    assert DidKey(0, w, w', c);
    match c {
      case CallDup(t, h, rights) => DupLicensed(w, t, h, rights);
      case CallSend(_, _, _, _, _, _) => SendLicensed(w, c);
      case CallReceive(_, _, _, _) => ReceiveLicensed(w, c);
    }
  }

  lemma AuthorizedOthers(w: World, w': World, c: Call, y: Answer)
    requires Inv(w, multiset{}) && !c.Boot? && !c.BootConnect? && Lives(w, c.t) && Served(w, w', c, y)
    requires !c.CallDup? && !c.CallSend? && !c.CallReceive?
    ensures (y.st == Done ==> Licensed(w, c)) && (y.st == NoAccess && !c.CallMap? ==> !Licensed(w, c))
  {
    assert DidKey(0, w, w', c);
    match c {
      case CallMap(_, _, _, _, _) => MapLicensed(w, c);
      case CallOpen(t, sh, _, _) => SovereignLicensed(w, t, sh, c);
      case CallSpawn(t, sh) => SovereignLicensed(w, t, sh, c);
      case _ =>
    }
  }

  // ---- messages ----

  ghost function QueueOf(w: World, e: nat): seq<Msg>
    requires IsEndpoint(w, e)
  {
    w.objs[e].queue
  }

  /** What a call that was carried out put into the queue of e. */
  ghost function Put(w: World, c: Call, y: Answer, e: nat): seq<Msg> {
    if c.CallSend? && y.st == Done && HasRight(w, c.t, c.eh, e, SEND) then
      if c.h == 0 then [Msg(c.data, c.t, None, {})]
      else if Resolve(w.tables[c.t], c.h).Some? then
        [Msg(c.data, c.t, w.tables[c.t][Resolve(w.tables[c.t], c.h).value].obj, c.rights)]
      else []
    else []
  }

  /** What it took out of it, and gave to the caller. */
  ghost function Got(w: World, c: Call, y: Answer, e: nat): seq<Msg> {
    if c.CallReceive? && y.st == Done && y.m.Some? && HasRight(w, c.t, c.eh, e, RECV) then [y.m.value] else []
  }

  lemma SentQueue(w: World, w': World, c: Call, y: Answer, e: nat)
    requires Inv(w, multiset{}) && c.CallSend? && Lives(w, c.t) && DidSend(w, w', c, y)
    requires IsEndpoint(w, e) && IsEndpoint(w', e)
    ensures QueueOf(w, e) + Put(w, c, y, e) == QueueOf(w', e)
  {
    if y.st == Done {
      RightFromSlot(w, c.t, c.eh, ENDPOINT, {SEND}, SEND);
    }
  }

  lemma ReceivedQueue(w: World, w': World, c: Call, y: Answer, e: nat)
    requires Inv(w, multiset{}) && c.CallReceive? && Lives(w, c.t) && DidReceive(w, w', c.t, c.eh, c.cap, c.usable, y)
    requires IsEndpoint(w, e) && IsEndpoint(w', e)
    ensures QueueOf(w, e) == Got(w, c, y, e) + QueueOf(w', e)
  {
    if y.st == Done {
      RightFromSlot(w, c.t, c.eh, ENDPOINT, {RECV}, RECV);
    }
  }

  /** Every other call leaves the queues alone. */
  lemma OtherQueue(w: World, w': World, c: Call, y: Answer, e: nat)
    requires !c.CallSend? && !c.CallReceive? && !c.Boot? && !c.BootConnect? && Lives(w, c.t) && DidFor(w, w', c, y)
    requires IsEndpoint(w, e) && IsEndpoint(w', e)
    ensures QueueOf(w', e) == QueueOf(w, e)
  {
    match c {
      case CallClose(t, h) =>
        if Resolve(w.tables[t], h).Some? {
          var i := Resolve(w.tables[t], h).value;
          var o := w.tables[t][i].obj.value;
          assert LessKey(0, Closed(w, t, i), w', o) && QueueKept(Closed(w, t, i), w', e) && QueueKept(w, w', o);
        }
      case End(t) =>
        assert ShrinkKey(0, w, w') && QueueKept(w, w', e);
      case _ =>
    }
  }

  lemma GivenQueue(w: World, w': World, t: nat, o: nat, rights: set<nat>, y: Answer, e: nat)
    requires Lives(w, t) && Given(w, w', t, o, rights, y) && IsEndpoint(w, e)
    ensures IsEndpoint(w', e) && QueueOf(w', e) == QueueOf(w, e)
  {
  }

  lemma LinkedQueue(w: World, w': World, s: nat, r: nat, y: Answer, e: nat)
    requires Lives(w, s) && Lives(w, r) && DidConnect(w, w', s, r, y)
    requires IsEndpoint(w, e) && IsEndpoint(w', e)
    ensures QueueOf(w', e) == QueueOf(w, e)
  {
    if y == Just(Done) && w' != w {
      var x: nat, n: nat, w1: World, w2: World, y1: Answer, y2: Answer :| Linked(w, w', s, r, x, n, w1, w2, y1, y2);
      assert DidKey(0, w, w', BootConnect(s, r));
      GivenQueue(NewEndpoint(w, x, n), w1, s, x, {SEND}, y1, e);
      GivenQueue(w1, w2, r, x, {RECV}, y2, e);
      var w3 := w2.(holders := w2.holders - {Kept(n)});
      assert LessKey(0, w3, w', x) && QueueKept(w3, w', e);
    }
  }

  /** One call: what was in the queue and what it put there is what it took and what is in the queue now. */
  lemma QueueStep(w: World, w': World, c: Call, y: Answer, e: nat)
    requires Inv(w, multiset{}) && Did(w, w', c, y) && IsEndpoint(w, e) && IsEndpoint(w', e)
    ensures QueueOf(w, e) + Put(w, c, y, e) == Got(w, c, y, e) + QueueOf(w', e)
  {
    match c {
      case Boot =>
      case BootConnect(s, r) =>
        if Lives(w, s) && Lives(w, r) {
          LinkedQueue(w, w', s, r, y, e);
        }
      case _ =>
        if Lives(w, c.t) {
          ServedQueue(w, w', c, y, e);
        }
    }
  }

  lemma ServedQueue(w: World, w': World, c: Call, y: Answer, e: nat)
    requires Inv(w, multiset{}) && !c.Boot? && !c.BootConnect? && Lives(w, c.t) && Served(w, w', c, y)
    requires IsEndpoint(w, e) && IsEndpoint(w', e)
    ensures QueueOf(w, e) + Put(w, c, y, e) == Got(w, c, y, e) + QueueOf(w', e)
  {
    assert DidKey(0, w, w', c);
    if c.CallSend? {
      SentQueue(w, w', c, y, e);
    } else if c.CallReceive? {
      ReceivedQueue(w, w', c, y, e);
    } else {
      OtherQueue(w, w', c, y, e);
    }
  }

  /** All that was put into the queue of e from moment i to moment j. */
  ghost function AllPut(trail: seq<World>, calls: seq<Call>, answers: seq<Answer>, e: nat, i: nat, j: nat): seq<Msg>
    requires i <= j <= |calls| == |answers| < |trail|
  {
    if i == j then []
    else AllPut(trail, calls, answers, e, i, j - 1) + Put(trail[j - 1], calls[j - 1], answers[j - 1], e)
  }

  ghost function AllGot(trail: seq<World>, calls: seq<Call>, answers: seq<Answer>, e: nat, i: nat, j: nat): seq<Msg>
    requires i <= j <= |calls| == |answers| < |trail|
  {
    if i == j then []
    else AllGot(trail, calls, answers, e, i, j - 1) + Got(trail[j - 1], calls[j - 1], answers[j - 1], e)
  }

  /** Over any part of a run in which endpoint e is there: the messages received from it are, in order, those
      that were in its queue and then those that were sent to it, up to those that are in the queue still. */
  lemma {:induction false} MessagesOverRun(trail: seq<World>, calls: seq<Call>, answers: seq<Answer>, e: nat, i: nat,
                                           j: nat)
    requires Course(trail, calls, answers) && i <= j <= |calls| && forall k | i <= k <= j :: IsEndpoint(trail[k], e)
    ensures QueueOf(trail[i], e) + AllPut(trail, calls, answers, e, i, j) ==
              AllGot(trail, calls, answers, e, i, j) + QueueOf(trail[j], e)
    decreases j
  {
    if i < j {
      MessagesOverRun(trail, calls, answers, e, i, j - 1);
      assert StepAt(trail, calls, answers, j - 1);
      QueueStep(trail[j - 1], trail[j], calls[j - 1], answers[j - 1], e);
      Shift(QueueOf(trail[i], e), AllPut(trail, calls, answers, e, i, j - 1),
            Put(trail[j - 1], calls[j - 1], answers[j - 1], e), AllGot(trail, calls, answers, e, i, j - 1),
            Got(trail[j - 1], calls[j - 1], answers[j - 1], e), QueueOf(trail[j - 1], e), QueueOf(trail[j], e));
    }
  }

  lemma Shift(q: seq<Msg>, put: seq<Msg>, p: seq<Msg>, got: seq<Msg>, g: seq<Msg>, q1: seq<Msg>, q2: seq<Msg>)
    requires q + put == got + q1 && q1 + p == g + q2
    ensures q + (put + p) == (got + g) + q2
  {
    calc {
      q + (put + p);
      (q + put) + p;
      (got + q1) + p;
      got + (q1 + p);
      got + (g + q2);
      (got + g) + q2;
    }
  }
}
