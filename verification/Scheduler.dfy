/** Tasks on one processor: round-robin scheduling, blocking in a receive, ending and reaping. */
module Scheduler {
  import opened Common

  const TASKS: nat := 32

  const QUEUE: nat := 8

  const SLICE: nat := 2

  datatype State = Free | Ready | Running | Blocked | Dead | Reaped

  datatype Wait = Nothing | OnEndpoint(e: nat) | Asleep

  /** What a task that is switched away from goes on with: its own code, the loop of a receive, or the loop
      that waits for a task's end. */
  datatype Doing = Working | Receiving(e: nat) | Joining(t: nat)

  datatype Tcb = Tcb(state: State, on: Wait, waiter: Option<nat>, wakeAt: nat, started: bool, user: bool, slice: nat,
                     doing: Doing)

  /** An endpoint: how many messages are queued, and who waits for one. */
  datatype Ep = Ep(count: nat, waiter: Option<nat>)

  predicate Active(s: State) {
    s == Ready || s == Running
  }

  predicate Present(s: State) {
    s == Ready || s == Running || s == Blocked
  }

  predicate Ended(s: State) {
    s == Dead || s == Reaped
  }

  // ---- round robin ----

  /** How many slots x is ahead of c, going round. */
  function Dist(c: nat, x: nat): nat
    requires c < TASKS && x < TASKS
  {
    if x > c then x - c else x + TASKS - c
  }

  function Slot(c: nat, d: nat): (x: nat)
    requires c < TASKS && 1 <= d <= TASKS
    ensures x < TASKS && Dist(c, x) == d
  {
    if c + d < TASKS then c + d else c + d - TASKS
  }

  /** Going to the first of several slots brings every other one nearer. */
  lemma Nearer(c: nat, n: nat, x: nat)
    requires c < TASKS && n < TASKS && x < TASKS && n != x && Dist(c, n) <= Dist(c, x)
    ensures Dist(n, x) < Dist(c, x)
  {
  }

  predicate Runnable(tasks: seq<Tcb>, idle: nat, x: nat)
    requires |tasks| == TASKS
  {
    x < TASKS && tasks[x].state == Ready && x != idle
  }

  /** The task that runs next: the nearest that is ready, the current one if it still can, or the idle one. */
  ghost predicate Picked(tasks: seq<Tcb>, idle: nat, c: nat, n: nat)
    requires |tasks| == TASKS && c < TASKS && n < TASKS
  {
    if exists x :: Runnable(tasks, idle, x)
    then Runnable(tasks, idle, n) && forall x | Runnable(tasks, idle, x) :: Dist(c, n) <= Dist(c, x)
    else if tasks[c].state == Running then n == c else n == idle
  }

  // ---- the invariant ----

  /** An endpoint's waiter is blocked on it, and its queue is empty; and whoever is blocked on an endpoint is
      its waiter. */
  ghost predicate WaitersOk(tasks: seq<Tcb>, eps: seq<Ep>) {
    && (forall e | 0 <= e < |eps| && eps[e].waiter.Some? ::
          var w := eps[e].waiter.value;
          w < |tasks| && tasks[w].state == Blocked && tasks[w].on == OnEndpoint(e) && eps[e].count == 0)
    && (forall w | 0 <= w < |tasks| && tasks[w].state == Blocked && tasks[w].on.OnEndpoint? ::
          tasks[w].on.e < |eps| && eps[tasks[w].on.e].waiter == Some(w))
    && (forall e | 0 <= e < |eps| :: eps[e].count <= QUEUE)
  }

  /** Whoever waits for a task's end is a kernel thread in that loop, and can run once the task has ended. */
  ghost predicate JoinersOk(tasks: seq<Tcb>) {
    forall t | 0 <= t < |tasks| && tasks[t].waiter.Some? :: JoinerOk(tasks, t, tasks[t].waiter.value)
  }

  ghost predicate JoinerOk(tasks: seq<Tcb>, t: nat, w: nat)
    requires t < |tasks|
  {
    && w < |tasks| && !tasks[w].user && tasks[w].doing == Joining(t) && tasks[w].on == Nothing
    && (tasks[w].state == Ready || tasks[w].state == Running || (tasks[w].state == Blocked && tasks[t].state != Dead))
  }

  /** A task that has ended and that nobody waits for. */
  predicate Orphan(tasks: seq<Tcb>, t: nat) {
    t < |tasks| && tasks[t].state == Dead && tasks[t].waiter.None?
  }

  /** The reaper, once there, can run whenever there is something to reap. */
  ghost predicate ReaperOk(tasks: seq<Tcb>, idle: nat, reaper: Option<nat>) {
    reaper.Some? ==>
      var r := reaper.value;
      && r < |tasks| && r != idle && !tasks[r].user && tasks[r].doing == Working && tasks[r].on == Nothing
      && Present(tasks[r].state)
      && ((exists t :: Orphan(tasks, t)) ==> tasks[r].state != Blocked)
  }

  ghost predicate IdleOk(tasks: seq<Tcb>, idle: nat) {
    idle < |tasks| && !tasks[idle].user && tasks[idle].doing == Working && tasks[idle].on == Nothing
    && Active(tasks[idle].state)
  }

  /** Only who is blocked is blocked on something. */
  ghost predicate AwakeOk(tasks: seq<Tcb>) {
    forall x | 0 <= x < |tasks| && tasks[x].state != Blocked :: tasks[x].on == Nothing
  }

  ghost predicate SlicesOk(tasks: seq<Tcb>) {
    forall x | 0 <= x < |tasks| :: tasks[x].slice <= SLICE
  }

  ghost predicate PeaceKey(k: nat, tasks: seq<Tcb>, eps: seq<Ep>) {
    true
  }

  ghost predicate PeacePart(k: nat, tasks: seq<Tcb>, eps: seq<Ep>, idle: nat, reaper: Option<nat>) {
    match k
    case 0 => WaitersOk(tasks, eps)
    case 1 => JoinersOk(tasks)
    case 2 => ReaperOk(tasks, idle, reaper)
    case 3 => IdleOk(tasks, idle)
    case _ => AwakeOk(tasks)
  }

  /** All of it; each part is used by asking for its number. */
  ghost predicate Peace(tasks: seq<Tcb>, eps: seq<Ep>, idle: nat, reaper: Option<nat>) {
    forall k {:trigger PeaceKey(k, tasks, eps)} :: PeaceKey(k, tasks, eps) ==> PeacePart(k, tasks, eps, idle, reaper)
  }

  class Sched {
    var tasks: seq<Tcb>
    var eps: seq<Ep>
    var current: nat
    var idle: nat
    var reaper: Option<nat>
    var now: nat
    const preempt: bool

    /** Everything but the state of the current task, which may have stopped running. */
    ghost predicate Switching()
      reads this
    {
      && |tasks| == TASKS && current < TASKS && tasks[current].state != Ready
      && (forall x | 0 <= x < TASKS && tasks[x].state == Running :: x == current) && SlicesOk(tasks)
      && Peace(tasks, eps, idle, reaper)
    }

    /** Exactly one task runs, the current one. */
    ghost predicate Valid()
      reads this
    {
      Switching() && tasks[current].state == Running
    }

    /** The boot thread running, the idle thread ready, and endpoints without messages. */
    constructor (endpoints: nat, preempt: bool)
      ensures Valid() && current == 0 && idle == 1 && reaper == None && |eps| == endpoints
    {
      var none := Tcb(Free, Nothing, None, 0, false, false, 0, Working);
      tasks := seq(TASKS, i => if i == 0 then none.(state := Running, slice := SLICE)
                               else if i == 1 then none.(state := Ready) else none);
      eps := seq(endpoints, i => Ep(0, None));
      current, idle, reaper, now, this.preempt := 0, 1, None, 0, preempt;
    }

    method PickNext() returns (n: nat)
      requires Switching()
      ensures n < TASKS && Picked(tasks, idle, current, n)
    {
      var i := 1;
      while i <= TASKS
        invariant 1 <= i <= TASKS + 1
        invariant forall x | Runnable(tasks, idle, x) :: Dist(current, x) >= i
      {
        var x := Slot(current, i);
        if tasks[x].state == Ready && x != idle {
          assert Runnable(tasks, idle, x);
          return x;
        }
        assert forall y | Runnable(tasks, idle, y) && Dist(current, y) == i :: y == x;
        i := i + 1;
      }
      assert !exists x :: Runnable(tasks, idle, x);
      assert PeaceKey(3, tasks, eps);
      n := if tasks[current].state == Running && current != idle then current else idle;
    }

    /** Gives the processor to the task that is due. */
    method Schedule()
      requires Switching()
      modifies this`tasks, this`current
      ensures Valid() && Handed(old(tasks), idle, old(current), tasks, current)
    {
      var n := PickNext();
      assert PeaceKey(3, tasks, eps);
      PickedRuns(tasks, idle, current, n);
      if n == current {
        SliceKeeps(tasks, eps, idle, reaper, n);
      } else {
        SwitchKeeps(tasks, eps, idle, reaper, current, n);
      }
      tasks := Switch(tasks, current, n);
      current := n;
    }

    /** One task changes. */
    method Put(x: nat, b: Tcb)
      requires Switching() && x < TASKS && Fine(tasks, eps, idle, reaper, x, b)
      requires (b.state == Running ==> x == current) && (x == current ==> b.state != Ready) && b.slice <= SLICE
      modifies this`tasks
      ensures Switching() && tasks == old(tasks)[x := b]
    {
      Update(tasks, eps, idle, reaper, x, b);
      tasks := tasks[x := b];
    }

    /** A task that is blocked, and not on an endpoint, becomes ready. */
    method Wake(x: nat)
      requires Switching() && x < TASKS && x != current && !Holding(tasks[x])
      modifies this`tasks
      ensures Switching() && tasks == Woken(old(tasks), Some(x))
    {
      if tasks[x].state == Blocked {
        Facts(tasks, eps, idle, reaper, x);
        Put(x, tasks[x].(state := Ready, on := Nothing));
      }
    }

    /** The current task stops until it is woken. */
    method Block(on: Wait, doing: Doing)
      requires Valid() && current != idle && !on.OnEndpoint?
      requires IsJoiner(tasks, current) ==> doing == tasks[current].doing && on == Nothing && !JoinsDead(tasks, current)
      requires reaper == Some(current) ==> on == Nothing && doing == Working && forall t :: !Orphan(tasks, t)
      modifies this`tasks, this`current
      ensures Valid() && Handed(Stopped(old(tasks), old(current), on, doing), idle, old(current), tasks, current)
    {
      Facts(tasks, eps, idle, reaper, current);
      Put(current, tasks[current].(state := Blocked, on := on, doing := doing));
      Schedule();
    }

    /** The current task gives way to the one that is due. */
    method Yield()
      requires Valid()
      modifies this`tasks, this`current
      ensures Valid() && Handed(Yielded(old(tasks), old(current)), idle, old(current), tasks, current)
    {
      Facts(tasks, eps, idle, reaper, current);
      Put(current, tasks[current].(slice := 0));
      Schedule();
    }

    method Sleep(ticks: nat)
      requires Valid() && current != idle && tasks[current].doing == Working && reaper != Some(current)
      modifies this`tasks, this`current
      ensures Valid() && Handed(Sleeper(old(tasks), old(current), now + ticks), idle, old(current), tasks, current)
    {
      Facts(tasks, eps, idle, reaper, current);
      Put(current, tasks[current].(wakeAt := now + ticks));
      Facts(tasks, eps, idle, reaper, current);
      Block(Asleep, Working);
    }

    // ---- messages ----

    /** The waiter of an endpoint becomes ready. */
    method WakeWaiter(e: nat)
      requires Valid() && e < |eps| && eps[e].waiter.Some?
      modifies this`tasks, this`eps
      ensures Valid() && eps == old(eps)[e := old(eps)[e].(waiter := None)] && old(eps)[e].waiter.value < TASKS
      ensures tasks == Woken(old(tasks), old(eps)[e].waiter)
    {
      var w := eps[e].waiter.value;
      assert PeaceKey(0, tasks, eps);
      LetKeeps(tasks, eps, idle, reaper, e, tasks[w].(state := Ready, on := Nothing));
      tasks := tasks[w := tasks[w].(state := Ready, on := Nothing)];
      eps := eps[e := eps[e].(waiter := None)];
    }

    /** A message: whoever waits for one is ready afterwards. */
    method Send(e: nat) returns (ok: bool)
      requires Valid() && e < |eps|
      modifies this`tasks, this`eps
      ensures Valid() && |eps| == |old(eps)| && ok == (old(eps)[e].count < QUEUE) && current == old(current)
      ensures !ok ==> tasks == old(tasks) && eps == old(eps)
      ensures ok ==>
                eps == old(eps)[e := Ep(old(eps)[e].count + 1, None)] && tasks == Woken(old(tasks), old(eps)[e].waiter)
      ensures ok && old(eps)[e].waiter.Some? ==>
                old(eps)[e].waiter.value < TASKS && tasks[old(eps)[e].waiter.value].state == Ready
    {
      if eps[e].count == QUEUE {
        return false;
      }
      assert PeaceKey(0, tasks, eps);
      if eps[e].waiter.Some? {
        WakeWaiter(e);
      }
      CountKeeps(tasks, eps, idle, reaper, e, eps[e].count + 1);
      eps := eps[e := eps[e].(count := eps[e].count + 1)];
      return true;
    }

    /** One round of the receive loop: the message, if there is one and it is acceptable, or else the current
        task is the endpoint's waiter from now on. */
    method Receive(e: nat, accept: bool) returns (got: bool, busy: bool)
      requires Valid() && e < |eps| && current != idle && reaper != Some(current)
      requires tasks[current].doing == Working || tasks[current].doing == Receiving(e)
      modifies this`tasks, this`eps, this`current
      ensures Valid() && |eps| == |old(eps)|
      ensures got == (old(eps)[e].count > 0 && accept) && busy == (old(eps)[e].count == 0 && old(eps)[e].waiter.Some?)
      ensures old(eps)[e].count > 0 || busy ==>
                current == old(current) && tasks == old(tasks)[current := old(tasks)[current].(doing := Working)]
      ensures eps == old(eps)[e := if got then old(eps)[e].(count := old(eps)[e].count - 1)
                                   else if old(eps)[e].count > 0 || busy then old(eps)[e]
                                   else Ep(0, Some(old(current)))]
      ensures old(eps)[e].count == 0 && !busy ==>
                Handed(Stopped(old(tasks), old(current), OnEndpoint(e), Receiving(e)), idle, old(current), tasks,
                       current)
    {
      got, busy := false, false;
      Facts(tasks, eps, idle, reaper, current);
      assert PeaceKey(0, tasks, eps);
      if eps[e].count > 0 {
        got := accept;
        if accept {
          CountKeeps(tasks, eps, idle, reaper, e, eps[e].count - 1);
          eps := eps[e := eps[e].(count := eps[e].count - 1)];
        }
        Put(current, tasks[current].(doing := Working));
      } else if eps[e].waiter.Some? {
        busy := true;
        Put(current, tasks[current].(doing := Working));
      } else {
        WaitAt(e);
      }
    }

    /** The current task becomes the waiter of an endpoint without messages. */
    method WaitAt(e: nat)
      requires Valid() && e < |eps| && eps[e] == Ep(0, None) && current != idle && reaper != Some(current)
      requires !IsJoiner(tasks, current)
      modifies this`tasks, this`eps, this`current
      ensures Valid() && eps == old(eps)[e := Ep(0, Some(old(current)))]
      ensures Handed(Stopped(old(tasks), old(current), OnEndpoint(e), Receiving(e)), idle, old(current), tasks, current)
    {
      HoldKeeps(tasks, eps, idle, reaper, current, e);
      tasks := tasks[current := tasks[current].(state := Blocked, on := OnEndpoint(e), doing := Receiving(e))];
      eps := eps[e := eps[e].(waiter := Some(current))];
      Schedule();
    }

    // ---- the clock ----

    method OtherReady() returns (ok: bool)
      requires Valid()
      ensures ok <==> exists x :: Runnable(tasks, idle, x)
    {
      for s := 0 to TASKS
        invariant forall x: nat | x < s :: !(Runnable(tasks, idle, x) && x != current)
      {
        if tasks[s].state == Ready && s != idle && s != current {
          assert Runnable(tasks, idle, s);
          return true;
        }
      }
      return false;
    }

    /** Whoever has slept long enough becomes ready. */
    method WakeSleepers()
      requires Valid()
      modifies this`tasks
      ensures Valid() && tasks == Risen(old(tasks), now)
    {
      for s := 0 to TASKS
        invariant Valid()
        invariant forall x | 0 <= x < TASKS ::
                    tasks[x] == if x < s && Due(old(tasks)[x], now) then old(tasks)[x].(state := Ready, on := Nothing)
                                else old(tasks)[x]
      {
        if Due(tasks[s], now) {
          Wake(s);
        }
      }
    }

    /** A tick of the timer; a task whose slice is used up gives way if another one is ready. */
    method Tick()
      requires Valid()
      modifies this`tasks, this`current, this`now
      ensures Valid() && now == old(now) + 1
      ensures var mid := Ticked(old(tasks), old(current), now);
              if Ends(mid, idle, old(current), preempt) then Handed(mid, idle, old(current), tasks, current)
              else tasks == mid && current == old(current)
    {
      now := now + 1;
      Facts(tasks, eps, idle, reaper, current);
      Put(current, tasks[current].(slice := if tasks[current].slice > 0 then tasks[current].slice - 1 else 0));
      WakeSleepers();
      assert tasks == Ticked(old(tasks), current, now);
      if !preempt && current != idle {
        return;
      }
      var other := OtherReady();
      if (current == idle || tasks[current].slice == 0) && other {
        Schedule();
      }
    }

    // ---- beginning and ending ----

    /** A free slot for a new task, not yet started. */
    method Create(user: bool) returns (t: nat)
      requires Valid()
      modifies this`tasks
      ensures Valid() && t <= TASKS && (forall x | 0 <= x < t :: old(tasks)[x].state != Free)
      ensures if t == TASKS then tasks == old(tasks)
              else
                && old(tasks)[t].state == Free
                && tasks == old(tasks)[t := Tcb(Blocked, Nothing, None, 0, false, user, 0, Working)]
    {
      t := 0;
      while t < TASKS && tasks[t].state != Free
        invariant t <= TASKS && forall x | 0 <= x < t :: tasks[x].state != Free
      {
        t := t + 1;
      }
      if t < TASKS {
        Facts(tasks, eps, idle, reaper, t);
        Put(t, Tcb(Blocked, Nothing, None, 0, false, user, 0, Working));
      }
    }

    method Start(t: nat)
      requires Valid() && t < TASKS
      modifies this`tasks
      ensures Valid()
      ensures tasks == if old(tasks)[t].state == Blocked && old(tasks)[t].on == Nothing && !old(tasks)[t].started
                                  then old(tasks)[t := old(tasks)[t].(state := Ready, started := true)] else old(tasks)
    {
      if tasks[t].state == Blocked && tasks[t].on == Nothing && !tasks[t].started {
        Facts(tasks, eps, idle, reaper, t);
        Put(t, tasks[t].(state := Ready, started := true));
      }
    }

    /** Whoever has to do with a task that ends: its waiter, or the reaper. */
    method Notify(t: nat)
      requires Valid() && t < TASKS && reaper != Some(t) && !IsJoiner(tasks, t)
      modifies this`tasks
      ensures Valid() && tasks == Woken(old(tasks), Heir(old(tasks), t, reaper)) && tasks[t] == old(tasks)[t]
      ensures if tasks[t].waiter.None? then NoSleepingReaper(tasks, reaper) else Awake(tasks, tasks[t].waiter.value)
    {
      assert PeaceKey(1, tasks, eps) && PeaceKey(2, tasks, eps);
      if tasks[t].waiter.Some? {
        var w := tasks[t].waiter.value;
        assert JoinerOk(tasks, t, w);
        if w != current {
          Wake(w);
        }
      } else if reaper.Some? && reaper.value != current {
        Wake(reaper.value);
      }
    }

    /** A task ends: it waits for nothing any more, and somebody who will reap it can run. */
    method EndTask(t: nat)
      requires Valid() && t < TASKS && t != idle && reaper != Some(t) && !IsJoiner(tasks, t)
      modifies this`tasks, this`eps
      ensures Switching() && (t != current ==> Valid())
      ensures tasks == Gone(old(tasks), t, reaper) && eps == LetGo(old(eps), t)
      ensures if tasks[t].waiter.Some? then Awake(tasks, tasks[t].waiter.value) else NoSleepingReaper(tasks, reaper)
    {
      Notify(t);
      StillNoJoiner(old(tasks), tasks, t);
      Cut(t);
    }

    /** The task is dead, and no endpoint's waiter. */
    method Cut(t: nat)
      requires Valid() && t < TASKS && t != idle && reaper != Some(t) && !IsJoiner(tasks, t)
      requires if tasks[t].waiter.Some? then Awake(tasks, tasks[t].waiter.value) else NoSleepingReaper(tasks, reaper)
      modifies this`tasks, this`eps
      ensures Switching() && (t != current ==> Valid())
      ensures tasks == old(tasks)[t := old(tasks)[t].(state := Dead, on := Nothing)] && eps == LetGo(old(eps), t)
    {
      Facts(tasks, eps, idle, reaper, t);
      assert PeaceKey(0, tasks, eps);
      var b := tasks[t].(state := Dead, on := Nothing);
      if tasks[t].state == Blocked && tasks[t].on.OnEndpoint? {
        var e := tasks[t].on.e;
        LetKeeps(tasks, eps, idle, reaper, e, b);
        tasks, eps := tasks[t := b], eps[e := eps[e].(waiter := None)];
      } else {
        Put(t, b);
      }
    }

    method Exit()
      requires Valid() && current != idle && reaper != Some(current) && tasks[current].doing == Working
      modifies this`tasks, this`eps, this`current
      ensures Valid() && eps == LetGo(old(eps), old(current))
      ensures Handed(Gone(old(tasks), old(current), reaper), idle, old(current), tasks, current)
    {
      Facts(tasks, eps, idle, reaper, current);
      EndTask(current);
      Schedule();
    }

    /** Ends another user task, or the current one. */
    method Kill(t: nat)
      requires Valid() && t < TASKS && tasks[t].user
      modifies this`tasks, this`eps, this`current
      ensures Valid()
      ensures if !Present(old(tasks)[t].state) then tasks == old(tasks) && eps == old(eps) && current == old(current)
              else eps == LetGo(old(eps), t) &&
                   if t == old(current) then Handed(Gone(old(tasks), t, reaper), idle, t, tasks, current)
                   else tasks == Gone(old(tasks), t, reaper) && current == old(current)
    {
      if tasks[t].state == Free || tasks[t].state == Dead || tasks[t].state == Reaped {
        return;
      }
      Facts(tasks, eps, idle, reaper, t);
      EndTask(t);
      if t == current {
        Schedule();
      }
    }

    /** One round of the loop that waits for another task's end and then reaps it. */
    method Join(t: nat)
      requires Valid() && t < TASKS && t != current && !tasks[current].user && current != idle
      requires reaper != Some(current)
      requires tasks[current].doing == Working || tasks[current].doing == Joining(t)
      modifies this`tasks, this`current
      ensures Valid()
      ensures if Ended(old(tasks)[t].state)
              then tasks == Collected(old(tasks), old(current), t) && current == old(current)
              else Handed(Waiting(old(tasks), old(current), t), idle, old(current), tasks, current)
    {
      if tasks[t].state == Dead || tasks[t].state == Reaped {
        Collect(t);
      } else {
        WaitFor(t);
      }
    }

    /** The task has ended: it is reaped, and its waiter goes on. */
    method Collect(t: nat)
      requires Valid() && t < TASKS && t != current && Ended(tasks[t].state) && current != idle
      requires reaper != Some(current)
      requires tasks[current].doing == Working || tasks[current].doing == Joining(t)
      modifies this`tasks
      ensures Valid() && tasks == Collected(old(tasks), current, t)
    {
      Facts(tasks, eps, idle, reaper, t);
      Put(t, tasks[t].(state := Reaped, waiter := None));
      Facts(tasks, eps, idle, reaper, current);
      Put(current, tasks[current].(doing := Working));
    }

    /** The current task stops until the other one ends. */
    method WaitFor(t: nat)
      requires Valid() && t < TASKS && t != current && !Ended(tasks[t].state) && !tasks[current].user && current != idle
      requires reaper != Some(current)
      requires tasks[current].doing == Working || tasks[current].doing == Joining(t)
      modifies this`tasks, this`current
      ensures Valid() && Handed(Waiting(old(tasks), old(current), t), idle, old(current), tasks, current)
    {
      Facts(tasks, eps, idle, reaper, current);
      Put(current, tasks[current].(doing := Joining(t)));
      Register(t);
      Facts(tasks, eps, idle, reaper, current);
      assert Stopped(tasks, current, Nothing, Joining(t)) == Waiting(old(tasks), current, t);
      Block(Nothing, Joining(t));
    }

    method Register(t: nat)
      requires Valid() && t < TASKS && t != current && !Ended(tasks[t].state) && !tasks[current].user
      requires tasks[current].doing == Joining(t)
      modifies this`tasks
      ensures Valid() && tasks == old(tasks)[t := old(tasks)[t].(waiter := Some(current))]
    {
      Facts(tasks, eps, idle, reaper, current);
      Facts(tasks, eps, idle, reaper, t);
      Put(t, tasks[t].(waiter := Some(current)));
    }

    /** The last reference to a reaped task goes. */
    method Release(t: nat)
      requires Valid() && t < TASKS && tasks[t].state == Reaped
      modifies this`tasks
      ensures Valid() && tasks == old(tasks)[t := old(tasks)[t].(state := Free)]
    {
      Facts(tasks, eps, idle, reaper, t);
      Put(t, tasks[t].(state := Free));
    }

    /** The reaper's round: afterwards nothing is left for it, and it stops. */
    method ReapAll()
      requires Valid() && reaper == Some(current)
      modifies this`tasks, this`current
      ensures Valid() && (forall t :: !Orphan(tasks, t))
      ensures Handed(Stopped(Swept(old(tasks)), old(current), Nothing, Working), idle, old(current), tasks, current)
    {
      Facts(tasks, eps, idle, reaper, current);
      for s := 0 to TASKS
        invariant Valid() && current == old(current)
        invariant forall x | 0 <= x < TASKS ::
                    tasks[x] == if x < s && Orphan(old(tasks), x) then old(tasks)[x].(state := Reaped)
                                else old(tasks)[x]
      {
        if tasks[s].state == Dead && tasks[s].waiter.None? {
          Facts(tasks, eps, idle, reaper, s);
          Put(s, tasks[s].(state := Reaped));
        }
      }
      assert tasks == Swept(old(tasks));
      Facts(tasks, eps, idle, reaper, current);
      ghost var was := tasks;
      assert forall t :: !Orphan(was, t);
      Block(Nothing, Working);
      assert forall t :: Orphan(tasks, t) ==> Orphan(was, t);
    }

    /** The reaper comes to life. */
    method StartReaper() returns (ok: bool)
      requires Valid() && reaper.None?
      modifies this`tasks, this`reaper
      ensures Valid() && ok == reaper.Some?
      ensures if ok then var r := reaper.value;
                         r < TASKS && old(tasks)[r].state == Free
                         && (forall x | 0 <= x < r :: old(tasks)[x].state != Free) &&
                         tasks == old(tasks)[r := Tcb(Ready, Nothing, None, 0, true, false, 0, Working)]
              else tasks == old(tasks) && forall x | 0 <= x < TASKS :: tasks[x].state != Free
    {
      assert PeaceKey(3, tasks, eps);
      var r := Create(false);
      if r == TASKS {
        return false;
      }
      Start(r);
      ReaperStarts(tasks, eps, idle, r);
      reaper := Some(r);
      return true;
    }
  }

  // ---- what the operations make of the tasks ----

  /** c stops, if it was running, and n runs, with a new slice. */
  function Switch(tasks: seq<Tcb>, c: nat, n: nat): (r: seq<Tcb>)
    requires c < |tasks| && n < |tasks|
    ensures |r| == |tasks| && forall x | 0 <= x < |tasks| && x != c && x != n :: r[x] == tasks[x]
  {
    var t := if tasks[c].state == Running && c != n then tasks[c := tasks[c].(state := Ready)] else tasks;
    t[n := t[n].(state := Running, slice := SLICE)]
  }

  /** The processor has gone from c to the task that is due. */
  ghost predicate Handed(tasks: seq<Tcb>, idle: nat, c: nat, tasks': seq<Tcb>, n: nat) {
    |tasks| == TASKS && c < TASKS && n < TASKS && Picked(tasks, idle, c, n) && tasks' == Switch(tasks, c, n)
  }

  function Woken(tasks: seq<Tcb>, x: Option<nat>): seq<Tcb> {
    if x.Some? && x.value < |tasks| && tasks[x.value].state == Blocked
    then tasks[x.value := tasks[x.value].(state := Ready, on := Nothing)] else tasks
  }

  function Stopped(tasks: seq<Tcb>, c: nat, on: Wait, doing: Doing): seq<Tcb>
    requires c < |tasks|
  {
    tasks[c := tasks[c].(state := Blocked, on := on, doing := doing)]
  }

  function Yielded(tasks: seq<Tcb>, c: nat): seq<Tcb>
    requires c < |tasks|
  {
    tasks[c := tasks[c].(slice := 0)]
  }

  function Sleeper(tasks: seq<Tcb>, c: nat, until: nat): seq<Tcb>
    requires c < |tasks|
  {
    Stopped(tasks[c := tasks[c].(wakeAt := until)], c, Asleep, Working)
  }

  /** Whoever has slept long enough is ready. */
  function Risen(tasks: seq<Tcb>, now: nat): seq<Tcb> {
    seq(|tasks|, i requires 0 <= i < |tasks| =>
      if Due(tasks[i], now) then tasks[i].(state := Ready, on := Nothing) else tasks[i])
  }

  /** The tasks at a tick, before it is decided who goes on. */
  function Ticked(tasks: seq<Tcb>, c: nat, now: nat): seq<Tcb>
    requires c < |tasks|
  {
    Risen(tasks[c := tasks[c].(slice := if tasks[c].slice > 0 then tasks[c].slice - 1 else 0)], now)
  }

  /** The tick ends the current task's turn: its slice is used up, or it is the idle thread, and another
      task is ready. */
  ghost predicate Ends(tasks: seq<Tcb>, idle: nat, c: nat, preempt: bool)
    requires |tasks| == TASKS && c < TASKS
  {
    (preempt || c == idle) && (c == idle || tasks[c].slice == 0) && exists x :: Runnable(tasks, idle, x)
  }

  /** Who is told that t has ended: its waiter, or else the reaper. */
  function Heir(tasks: seq<Tcb>, t: nat, reaper: Option<nat>): Option<nat>
    requires t < |tasks|
  {
    if tasks[t].waiter.Some? then tasks[t].waiter else reaper
  }

  function Gone(tasks: seq<Tcb>, t: nat, reaper: Option<nat>): seq<Tcb>
    requires t < |tasks|
  {
    var w := Woken(tasks, Heir(tasks, t, reaper));
    w[t := w[t].(state := Dead, on := Nothing)]
  }

  function LetGo(eps: seq<Ep>, t: nat): seq<Ep> {
    seq(|eps|, i requires 0 <= i < |eps| => if eps[i].waiter == Some(t) then eps[i].(waiter := None) else eps[i])
  }

  function Collected(tasks: seq<Tcb>, c: nat, t: nat): seq<Tcb>
    requires c < |tasks| && t < |tasks|
  {
    tasks[t := tasks[t].(state := Reaped, waiter := None)][c := tasks[c].(doing := Working)]
  }

  function Waiting(tasks: seq<Tcb>, c: nat, t: nat): seq<Tcb>
    requires c < |tasks| && t < |tasks|
  {
    Stopped(tasks[t := tasks[t].(waiter := Some(c))], c, Nothing, Joining(t))
  }

  /** Whoever has ended, with nobody waiting, is reaped. */
  function Swept(tasks: seq<Tcb>): seq<Tcb> {
    seq(|tasks|, i requires 0 <= i < |tasks| => if Orphan(tasks, i) then tasks[i].(state := Reaped) else tasks[i])
  }

  /** The task that is due is ready or running. */
  lemma PickedRuns(tasks: seq<Tcb>, idle: nat, c: nat, n: nat)
    requires |tasks| == TASKS && c < TASKS && n < TASKS && Picked(tasks, idle, c, n) && IdleOk(tasks, idle)
    requires tasks[c].state != Ready
    requires forall x | 0 <= x < TASKS && tasks[x].state == Running :: x == c
    ensures n == c ==> tasks[c].state == Running
    ensures n != c ==> tasks[n].state == Ready
  {
  }

  lemma SwitchKeeps(tasks: seq<Tcb>, eps: seq<Ep>, idle: nat, reaper: Option<nat>, c: nat, n: nat)
    requires |tasks| == TASKS && c < TASKS && n < TASKS && c != n && tasks[n].state == Ready && tasks[c].state != Ready
    requires Peace(tasks, eps, idle, reaper)
    ensures Peace(Switch(tasks, c, n), eps, idle, reaper)
  {
    var r := Switch(tasks, c, n);
    forall k | PeaceKey(k, r, eps) ensures PeacePart(k, r, eps, idle, reaper) {
      assert PeaceKey(k, tasks, eps);
      match k {
        case 0 =>
        case 1 =>
        case 2 => assert forall t :: Orphan(r, t) ==> Orphan(tasks, t);
        case 3 =>
        case _ =>
      }
    }
  }

  lemma SliceKeeps(tasks: seq<Tcb>, eps: seq<Ep>, idle: nat, reaper: Option<nat>, n: nat)
    requires |tasks| == TASKS && n < TASKS && tasks[n].state == Running && Peace(tasks, eps, idle, reaper)
    ensures Peace(Switch(tasks, n, n), eps, idle, reaper)
  {
    var b := tasks[n].(slice := SLICE);
    assert PeaceKey(1, tasks, eps) && PeaceKey(2, tasks, eps) && PeaceKey(3, tasks, eps) && PeaceKey(4, tasks, eps);
    Update(tasks, eps, idle, reaper, n, b);
  }

  /** Asleep, and long enough. */
  predicate Due(t: Tcb, now: nat) {
    t.state == Blocked && t.on == Asleep && now >= t.wakeAt
  }

  // ---- one task changes ----

  predicate Holding(t: Tcb) {
    t.state == Blocked && t.on.OnEndpoint?
  }

  predicate Awake(tasks: seq<Tcb>, x: nat) {
    x < |tasks| && (tasks[x].state == Ready || tasks[x].state == Running)
  }

  /** What x waits for has ended. */
  predicate JoinsDead(tasks: seq<Tcb>, x: nat) {
    x < |tasks| && tasks[x].doing.Joining? && tasks[x].doing.t < |tasks| && tasks[tasks[x].doing.t].state == Dead
  }

  ghost predicate IsJoiner(tasks: seq<Tcb>, x: nat) {
    exists t | 0 <= t < |tasks| :: tasks[t].waiter == Some(x)
  }

  /** Slot x may become b: it stays blocked on an endpoint or not as it was; if somebody is waited for by it,
      it goes on waiting; and so on. */
  ghost predicate Fine(tasks: seq<Tcb>, eps: seq<Ep>, idle: nat, reaper: Option<nat>, x: nat, b: Tcb)
    requires x < |tasks|
  {
    var a := tasks[x];
    && Holding(b) == Holding(a) && (Holding(a) ==> b.on == a.on) && (b.state != Blocked ==> b.on == Nothing)
    && (b.waiter.Some? ==>
          && (b.waiter == a.waiter || b.waiter.value != x) && JoinerOk(tasks, x, b.waiter.value)
          && (b.state == Dead ==> Awake(tasks, b.waiter.value)))
    && (IsJoiner(tasks, x) ==> b.doing == a.doing && !b.user && b.on == Nothing &&
                               (b.state == Ready || b.state == Running || (b.state == Blocked && !JoinsDead(tasks, x))))
    && (reaper == Some(x) ==> !b.user && b.doing == Working && b.on == Nothing && Present(b.state) &&
                              (b.state == Blocked ==> forall t :: !Orphan(tasks, t)))
    && (b.state == Dead && b.waiter.None? ==> (a.state == Dead && a.waiter.None?) || NoSleepingReaper(tasks, reaper))
    && (x == idle ==> !b.user && b.doing == Working && b.on == Nothing && Active(b.state))
  }

  predicate NoSleepingReaper(tasks: seq<Tcb>, reaper: Option<nat>) {
    reaper.Some? ==> reaper.value < |tasks| && tasks[reaper.value].state != Blocked
  }

  lemma Update(tasks: seq<Tcb>, eps: seq<Ep>, idle: nat, reaper: Option<nat>, x: nat, b: Tcb)
    requires x < |tasks| && Peace(tasks, eps, idle, reaper) && Fine(tasks, eps, idle, reaper, x, b)
    ensures Peace(tasks[x := b], eps, idle, reaper)
  {
    var r := tasks[x := b];
    forall k | PeaceKey(k, r, eps) ensures PeacePart(k, r, eps, idle, reaper) {
      assert PeaceKey(k, tasks, eps);
      match k {
        case 0 =>
        case 1 => UpdateJoiners(tasks, eps, idle, reaper, x, b);
        case 2 => UpdateReaper(tasks, eps, idle, reaper, x, b);
        case 3 =>
        case _ =>
      }
    }
  }

  lemma UpdateJoiners(tasks: seq<Tcb>, eps: seq<Ep>, idle: nat, reaper: Option<nat>, x: nat, b: Tcb)
    requires x < |tasks| && JoinersOk(tasks) && Fine(tasks, eps, idle, reaper, x, b)
    ensures JoinersOk(tasks[x := b])
  {
    var r := tasks[x := b];
    forall t | 0 <= t < |r| && r[t].waiter.Some? ensures JoinerOk(r, t, r[t].waiter.value) {
      var w := r[t].waiter.value;
      if t != x {
        assert JoinerOk(tasks, t, w) && (w == x ==> IsJoiner(tasks, x));
      }
    }
  }

  lemma UpdateReaper(tasks: seq<Tcb>, eps: seq<Ep>, idle: nat, reaper: Option<nat>, x: nat, b: Tcb)
    requires x < |tasks| && ReaperOk(tasks, idle, reaper) && Fine(tasks, eps, idle, reaper, x, b)
    ensures ReaperOk(tasks[x := b], idle, reaper)
  {
    var r := tasks[x := b];
    forall t: nat | Orphan(r, t) ensures reaper.Some? ==> r[reaper.value].state != Blocked {
      if reaper.Some? && reaper.value != x {
        if t != x || (tasks[x].state == Dead && tasks[x].waiter.None?) {
          assert Orphan(tasks, t);
        }
      } else if t != x {
        assert Orphan(tasks, t);
      }
    }
  }

  /** What is known of a task. */
  lemma Facts(tasks: seq<Tcb>, eps: seq<Ep>, idle: nat, reaper: Option<nat>, x: nat)
    requires Peace(tasks, eps, idle, reaper) && x < |tasks|
    ensures IsJoiner(tasks, x) ==>
              tasks[x].doing.Joining? && !tasks[x].user && tasks[x].on == Nothing && Present(tasks[x].state)
    ensures IsJoiner(tasks, x) ==>
              tasks[x].doing.t < |tasks| && tasks[tasks[x].doing.t].waiter == Some(x)
              && (tasks[x].state == Blocked ==> !JoinsDead(tasks, x))
    ensures tasks[x].waiter.Some? ==> JoinerOk(tasks, x, tasks[x].waiter.value)
    ensures reaper == Some(x) ==>
              x != idle && !tasks[x].user && tasks[x].doing == Working && tasks[x].on == Nothing
              && Present(tasks[x].state)
    ensures reaper == Some(x) && tasks[x].state == Blocked ==> forall t :: !Orphan(tasks, t)
    ensures x == idle ==>
              !tasks[x].user && tasks[x].doing == Working && tasks[x].on == Nothing && Active(tasks[x].state)
    ensures Holding(tasks[x]) ==> tasks[x].on.e < |eps| && eps[tasks[x].on.e].waiter == Some(x)
    ensures tasks[x].state != Blocked ==> tasks[x].on == Nothing
  {
    assert PeaceKey(4, tasks, eps);
    assert PeaceKey(0, tasks, eps) && PeaceKey(1, tasks, eps) && PeaceKey(2, tasks, eps) && PeaceKey(3, tasks, eps);
  }

  /** The waiter of e is let go: it is ready, or it has ended. */
  lemma LetKeeps(tasks: seq<Tcb>, eps: seq<Ep>, idle: nat, reaper: Option<nat>, e: nat, b: Tcb)
    requires Peace(tasks, eps, idle, reaper) && e < |eps| && eps[e].waiter.Some? && eps[e].waiter.value < |tasks|
    requires b == tasks[eps[e].waiter.value].(state := b.state, on := Nothing) && (b.state == Ready || b.state == Dead)
    requires b.state == Dead ==>
               if b.waiter.None? then NoSleepingReaper(tasks, reaper) else Awake(tasks, b.waiter.value)
    ensures Peace(tasks[eps[e].waiter.value := b], eps[e := eps[e].(waiter := None)], idle, reaper)
  {
    var w := eps[e].waiter.value;
    var r, es := tasks[w := b], eps[e := eps[e].(waiter := None)];
    assert PeaceKey(0, tasks, eps);
    Facts(tasks, eps, idle, reaper, w);
    assert !IsJoiner(tasks, w) && reaper != Some(w) && w != idle;
    forall k | PeaceKey(k, r, es) ensures PeacePart(k, r, es, idle, reaper) {
      assert PeaceKey(k, tasks, eps);
      match k {
        case 0 =>
        case 1 => LetJoiners(tasks, w, b);
        case 2 => LetReaper(tasks, idle, reaper, w, b);
        case 3 =>
        case _ =>
      }
    }
  }

  lemma LetJoiners(tasks: seq<Tcb>, w: nat, b: Tcb)
    requires w < |tasks| && JoinersOk(tasks) && !IsJoiner(tasks, w) && b.waiter == tasks[w].waiter
    requires b.state == Dead && b.waiter.Some? ==> Awake(tasks, b.waiter.value)
    ensures JoinersOk(tasks[w := b])
  {
    var r := tasks[w := b];
    forall t | 0 <= t < |r| && r[t].waiter.Some? ensures JoinerOk(r, t, r[t].waiter.value) {
      assert JoinerOk(tasks, t, tasks[t].waiter.value);
    }
  }

  lemma LetReaper(tasks: seq<Tcb>, idle: nat, reaper: Option<nat>, w: nat, b: Tcb)
    requires w < |tasks| && ReaperOk(tasks, idle, reaper) && reaper != Some(w)
    requires b.state == Dead && b.waiter.None? ==> NoSleepingReaper(tasks, reaper)
    ensures ReaperOk(tasks[w := b], idle, reaper)
  {
    var r := tasks[w := b];
    forall t: nat | Orphan(r, t) ensures reaper.Some? ==> r[reaper.value].state != Blocked {
      if t != w {
        assert Orphan(tasks, t);
      }
    }
  }

  /** The current task becomes the waiter of an empty queue. */
  lemma HoldKeeps(tasks: seq<Tcb>, eps: seq<Ep>, idle: nat, reaper: Option<nat>, c: nat, e: nat)
    requires Peace(tasks, eps, idle, reaper) && e < |eps| && eps[e].waiter.None? && eps[e].count == 0 && c < |tasks|
    requires !Holding(tasks[c]) && !IsJoiner(tasks, c) && reaper != Some(c) && c != idle
    ensures Peace(tasks[c := tasks[c].(state := Blocked, on := OnEndpoint(e), doing := Receiving(e))],
                  eps[e := eps[e].(waiter := Some(c))], idle, reaper)
  {
    var b := tasks[c].(state := Blocked, on := OnEndpoint(e), doing := Receiving(e));
    var r, es := tasks[c := b], eps[e := eps[e].(waiter := Some(c))];
    forall k | PeaceKey(k, r, es) ensures PeacePart(k, r, es, idle, reaper) {
      assert PeaceKey(k, tasks, eps);
      match k {
        case 0 =>
        case 1 => LetJoiners(tasks, c, b);
        case 2 => LetReaper(tasks, idle, reaper, c, b);
        case 3 =>
        case _ =>
      }
    }
  }

  lemma CountKeeps(tasks: seq<Tcb>, eps: seq<Ep>, idle: nat, reaper: Option<nat>, e: nat, n: nat)
    requires Peace(tasks, eps, idle, reaper) && e < |eps| && eps[e].waiter.None? && n <= QUEUE
    ensures Peace(tasks, eps[e := eps[e].(count := n)], idle, reaper)
  {
    var es := eps[e := eps[e].(count := n)];
    forall k | PeaceKey(k, tasks, es) ensures PeacePart(k, tasks, es, idle, reaper) {
      assert PeaceKey(k, tasks, eps);
    }
  }

  lemma StillNoJoiner(tasks: seq<Tcb>, tasks': seq<Tcb>, t: nat)
    requires |tasks'| == |tasks| && !IsJoiner(tasks, t)
    requires forall x | 0 <= x < |tasks| :: tasks'[x].waiter == tasks[x].waiter
    ensures !IsJoiner(tasks', t)
  {
  }

  lemma ReaperStarts(tasks: seq<Tcb>, eps: seq<Ep>, idle: nat, r: nat)
    requires Peace(tasks, eps, idle, None) && r < |tasks| && tasks[r].state == Ready && tasks[r].on == Nothing
    requires tasks[r].doing == Working
    requires !tasks[r].user && r != idle
    ensures Peace(tasks, eps, idle, Some(r))
  {
    forall k | PeaceKey(k, tasks, eps) ensures PeacePart(k, tasks, eps, idle, Some(r)) {
      match k {
        case 0 =>
        case 1 =>
        case 2 =>
        case 3 =>
        case _ =>
      }
    }
  }
}
