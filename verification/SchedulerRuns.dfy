/** Every run of the scheduler: what each step does, and what follows for whole runs. */
module SchedulerRuns {
  import opened Common
  import opened Scheduler

  /** What the task that runs does next, or the timer. */
  datatype Event =
    | Timer
    | GoOn(accept: bool)
    | Yields
    | Sleeps(ticks: nat)
    | Sends(e: nat)
    | Receives(e: nat, accept: bool)
    | Creates(user: bool)
    | Starts(t: nat)
    | Exits
    | Kills(t: nat)
    | Joins(t: nat)
    | Releases(t: nat)
    | MakesReaper

  /** The scheduler between two steps. */
  datatype Moment = Moment(tasks: seq<Tcb>, eps: seq<Ep>, current: nat, reaper: Option<nat>, now: nat)

  function View(s: Sched): Moment
    reads s
  {
    Moment(s.tasks, s.eps, s.current, s.reaper, s.now)
  }

  /** Exactly the current task runs, and everyone who waits can be woken. */
  ghost predicate Safe(idle: nat, m: Moment) {
    && |m.tasks| == TASKS && m.current < TASKS && m.tasks[m.current].state == Running
    && (forall x | 0 <= x < TASKS && m.tasks[x].state == Running :: x == m.current) && SlicesOk(m.tasks)
    && Peace(m.tasks, m.eps, idle, m.reaper)
  }

  // ---- what one step does ----

  /** The tasks become these, and the one that is due runs. */
  ghost predicate Gives(idle: nat, m: Moment, m': Moment, mid: seq<Tcb>) {
    Handed(mid, idle, m.current, m'.tasks, m'.current) && m' == m.(tasks := m'.tasks, current := m'.current)
  }

  ghost predicate Ticks(idle: nat, preempt: bool, m: Moment, m': Moment)
    requires |m.tasks| == TASKS && m.current < TASKS
  {
    var mid := Ticked(m.tasks, m.current, m.now + 1);
    if Ends(mid, idle, m.current, preempt) then Gives(idle, m.(now := m.now + 1), m', mid)
    else m' == m.(now := m.now + 1, tasks := mid)
  }

  ghost predicate Sent(m: Moment, m': Moment, e: nat)
    requires e < |m.eps|
  {
    if m.eps[e].count < QUEUE
    then m' == m.(tasks := Woken(m.tasks, m.eps[e].waiter), eps := m.eps[e := Ep(m.eps[e].count + 1, None)])
    else m' == m
  }

  ghost predicate Received(idle: nat, m: Moment, m': Moment, e: nat, accept: bool)
    requires |m.tasks| == TASKS && m.current < TASKS && e < |m.eps|
  {
    var c, q := m.current, m.eps[e];
    var on := m.tasks[c := m.tasks[c].(doing := Working)];
    if q.count > 0 then m' == m.(tasks := on, eps := if accept then m.eps[e := q.(count := q.count - 1)] else m.eps)
    else if q.waiter.Some? then m' == m.(tasks := on)
    else Gives(idle, m.(eps := m.eps[e := Ep(0, Some(c))]), m', Stopped(m.tasks, c, OnEndpoint(e), Receiving(e)))
  }

  ghost predicate Joined(idle: nat, m: Moment, m': Moment, t: nat)
    requires |m.tasks| == TASKS && m.current < TASKS && t < TASKS
  {
    if Ended(m.tasks[t].state) then m' == m.(tasks := Collected(m.tasks, m.current, t))
    else Gives(idle, m, m', Waiting(m.tasks, m.current, t))
  }

  ghost predicate Killed(idle: nat, m: Moment, m': Moment, t: nat)
    requires |m.tasks| == TASKS && m.current < TASKS && t < TASKS
  {
    if !Present(m.tasks[t].state) then m' == m
    else
      var rest := m.(eps := LetGo(m.eps, t));
      if t == m.current then Gives(idle, rest, m', Gone(m.tasks, t, m.reaper))
      else m' == rest.(tasks := Gone(m.tasks, t, m.reaper))
  }

  /** The first free slot, if there is one, holds a new task. */
  ghost predicate Made(tasks: seq<Tcb>, tasks': seq<Tcb>, t: nat, b: Tcb) {
    && t <= |tasks| && (forall x | 0 <= x < t :: tasks[x].state != Free)
    && if t == |tasks| then tasks' == tasks else tasks[t].state == Free && tasks' == tasks[t := b]
  }

  ghost predicate Created(m: Moment, m': Moment, user: bool) {
    m' == m.(tasks := m'.tasks) &&
    exists t: nat :: Made(m.tasks, m'.tasks, t, Tcb(Blocked, Nothing, None, 0, false, user, 0, Working))
  }

  ghost predicate ReaperMade(m: Moment, m': Moment) {
    m' == m.(tasks := m'.tasks, reaper := m'.reaper) &&
    exists t: nat ::
      && Made(m.tasks, m'.tasks, t, Tcb(Ready, Nothing, None, 0, true, false, 0, Working))
      && m'.reaper == if t == |m.tasks| then m.reaper else Some(t)
  }

  function Started(b: Tcb): Tcb {
    if b.state == Blocked && b.on == Nothing && !b.started then b.(state := Ready, started := true) else b
  }

  /** What the current task does of its own. */
  ghost predicate Acted(idle: nat, m: Moment, m': Moment, ev: Event)
    requires |m.tasks| == TASKS && m.current < TASKS
  {
    var c := m.current;
    match ev
    case Timer => m' == m
    case GoOn(_) => m' == m
    case Yields => Gives(idle, m, m', Yielded(m.tasks, c))
    case Sleeps(n) => Gives(idle, m, m', Sleeper(m.tasks, c, m.now + n))
    case Sends(e) => if e < |m.eps| then Sent(m, m', e) else m' == m
    case Receives(e, accept) => if e < |m.eps| then Received(idle, m, m', e, accept) else m' == m
    case Creates(user) => Created(m, m', user)
    case Starts(t) => m' == if t < TASKS then m.(tasks := m.tasks[t := Started(m.tasks[t])]) else m
    case Exits => Killed(idle, m, m', c)
    case Kills(t) => if t < TASKS && m.tasks[t].user then Killed(idle, m, m', t) else m' == m
    case Joins(t) => if t < TASKS && t != c && !m.tasks[c].user then Joined(idle, m, m', t) else m' == m
    case Releases(t) =>
      m' == if t < TASKS && m.tasks[t].state == Reaped then m.(tasks := m.tasks[t := m.tasks[t].(state := Free)]) else m
    case MakesReaper => if m.reaper.None? then ReaperMade(m, m') else m' == m
  }

  /** One step.  The timer interrupts user code and the idle thread only; a task that was stopped inside a
      receive or while waiting for another goes on there; the idle thread and the reaper have loops of
      their own. */
  ghost predicate Did(idle: nat, preempt: bool, m: Moment, m': Moment, ev: Event)
    requires |m.tasks| == TASKS && m.current < TASKS
  {
    var c := m.current;
    var me := m.tasks[c];
    if ev.Timer? then
      if me.user || c == idle then Ticks(idle, preempt, m, m') else m' == m
    else if c == idle then Gives(idle, m, m', m.tasks)
    else if m.reaper == Some(c) then Gives(idle, m, m', Stopped(Swept(m.tasks), c, Nothing, Working))
    else
      match me.doing
      case Receiving(e) => if e < |m.eps| then Received(idle, m, m', e, ev.GoOn? && ev.accept) else m' == m
      case Joining(t) => if t < TASKS && t != c && !me.user then Joined(idle, m, m', t) else m' == m
      case Working => Acted(idle, m, m', ev)
  }

  method Step(s: Sched, ev: Event)
    requires s.Valid()
    modifies s
    ensures s.Valid() && s.idle == old(s.idle) && Did(s.idle, s.preempt, old(View(s)), View(s), ev)
  {
    var me := s.tasks[s.current];
    if ev.Timer? {
      if me.user || s.current == s.idle {
        s.Tick();
      }
    } else if s.current == s.idle {
      s.Schedule();
    } else if s.reaper == Some(s.current) {
      s.ReapAll();
    } else {
      match me.doing {
        case Receiving(e) =>
          if e < |s.eps| {
            var got, busy := s.Receive(e, ev.GoOn? && ev.accept);
          }
        case Joining(t) =>
          if t < TASKS && t != s.current && !me.user {
            s.Join(t);
          }
        case Working => Act(s, ev);
      }
    }
  }

  method Exchange(s: Sched, ev: Event)
    requires s.Valid() && s.current != s.idle && s.reaper != Some(s.current) && s.tasks[s.current].doing == Working
    requires ev.Sends? || ev.Receives?
    modifies s
    ensures s.Valid() && s.idle == old(s.idle) && Acted(s.idle, old(View(s)), View(s), ev)
  {
    match ev {
      case Sends(e) =>
        if e < |s.eps| {
          var ok := s.Send(e);
        }
      case Receives(e, accept) =>
        if e < |s.eps| {
          var got, busy := s.Receive(e, accept);
        }
    }
  }

  method Act(s: Sched, ev: Event)
    requires s.Valid() && s.current != s.idle && s.reaper != Some(s.current) && s.tasks[s.current].doing == Working
    modifies s
    ensures s.Valid() && s.idle == old(s.idle) && Acted(s.idle, old(View(s)), View(s), ev)
  {
    match ev {
      case Timer =>
      case GoOn(_) =>
      case Yields => s.Yield();
      case Sleeps(n) => s.Sleep(n);
      case Sends(_) => Exchange(s, ev);
      case Receives(_, _) => Exchange(s, ev);
      case Exits => s.Exit();
      case Kills(t) =>
        if t < TASKS && s.tasks[t].user {
          s.Kill(t);
        }
      case Joins(t) =>
        if t < TASKS && t != s.current && !s.tasks[s.current].user {
          s.Join(t);
        }
      case _ => Manage(s, ev);
    }
  }

  /** Tasks that begin, and what is left of those that have ended. */
  method Manage(s: Sched, ev: Event)
    requires s.Valid() && s.current != s.idle && s.reaper != Some(s.current) && s.tasks[s.current].doing == Working
    requires ev.Creates? || ev.Starts? || ev.Releases? || ev.MakesReaper?
    modifies s
    ensures s.Valid() && s.idle == old(s.idle) && Acted(s.idle, old(View(s)), View(s), ev)
  {
    match ev {
      case Creates(user) =>
        var t := s.Create(user);
        assert Made(old(s.tasks), s.tasks, t, Tcb(Blocked, Nothing, None, 0, false, user, 0, Working));
      case Starts(t) =>
        if t < TASKS {
          s.Start(t);
        }
      case Releases(t) =>
        if t < TASKS && s.tasks[t].state == Reaped {
          s.Release(t);
        }
      case MakesReaper =>
        if s.reaper.None? {
          var ok := s.StartReaper();
          ghost var t := if ok then s.reaper.value else TASKS;
          assert Made(old(s.tasks), s.tasks, t, Tcb(Ready, Nothing, None, 0, true, false, 0, Working));
        }
    }
  }

  // ---- whole runs ----

  /** From the i-th moment to the next is one step. */
  ghost predicate StepAt(idle: nat, preempt: bool, trail: seq<Moment>, events: seq<Event>, i: nat)
    requires i < |events| < |trail|
  {
    Safe(idle, trail[i]) && Safe(idle, trail[i + 1]) && Did(idle, preempt, trail[i], trail[i + 1], events[i])
  }

  /** The moments of a run, each one step after the other. */
  ghost predicate Course(idle: nat, preempt: bool, trail: seq<Moment>, events: seq<Event>) {
    && |trail| == |events| + 1 && Safe(idle, trail[0])
    && forall i | 0 <= i < |events| :: StepAt(idle, preempt, trail, events, i)
  }

  lemma SafeAt(idle: nat, preempt: bool, trail: seq<Moment>, events: seq<Event>, i: nat)
    requires Course(idle, preempt, trail, events) && i < |trail|
    ensures Safe(idle, trail[i])
  {
    assert i > 0 ==> StepAt(idle, preempt, trail, events, i - 1);
  }

  /** The events of a run are done one after the other, and every moment of it is safe. */
  method Run(s: Sched, events: seq<Event>) returns (ghost trail: seq<Moment>)
    requires s.Valid()
    modifies s
    ensures s.Valid() && s.idle == old(s.idle) && Course(s.idle, s.preempt, trail, events)
    ensures trail[0] == old(View(s)) && trail[|events|] == View(s)
  {
    trail := [View(s)];
    for i := 0 to |events|
      invariant s.Valid() && s.idle == old(s.idle) && Course(s.idle, s.preempt, trail, events[..i])
      invariant trail[0] == old(View(s)) && trail[i] == View(s)
    {
      Step(s, events[i]);
      CourseMore(s.idle, s.preempt, trail, events[..i], View(s), events[i]);
      assert events[..i] + [events[i]] == events[..i + 1];
      trail := trail + [View(s)];
    }
    assert events[..|events|] == events;
  }

  lemma CourseMore(idle: nat, preempt: bool, trail: seq<Moment>, events: seq<Event>, m: Moment, ev: Event)
    requires Course(idle, preempt, trail, events) && Safe(idle, trail[|events|]) && Safe(idle, m)
    requires Did(idle, preempt, trail[|events|], m, ev)
    ensures Course(idle, preempt, trail + [m], events + [ev])
  {
    var trail', events' := trail + [m], events + [ev];
    forall i | 0 <= i < |events'| ensures StepAt(idle, preempt, trail', events', i) {
      assert i < |events| ==> StepAt(idle, preempt, trail, events, i);
    }
  }

  /** At every moment of a run: exactly the current task runs; a waiter of an endpoint is blocked on it with
      the queue empty, and who is blocked on an endpoint is its waiter; and of a task that has ended the
      waiter, or else the reaper, can run. */
  lemma Between(idle: nat, m: Moment)
    requires Safe(idle, m)
    ensures forall x | 0 <= x < TASKS :: m.tasks[x].state == Running <==> x == m.current
    ensures forall e, w | 0 <= e < |m.eps| && 0 <= w < TASKS ::
              m.eps[e].waiter == Some(w) <==> m.tasks[w].state == Blocked && m.tasks[w].on == OnEndpoint(e)
    ensures forall e | 0 <= e < |m.eps| && m.eps[e].waiter.Some? :: m.eps[e].count == 0
    ensures forall t | 0 <= t < TASKS && m.tasks[t].state == Dead && m.tasks[t].waiter.Some? ::
              Awake(m.tasks, m.tasks[t].waiter.value)
    ensures m.reaper.Some? && (exists t :: Orphan(m.tasks, t)) ==> Awake(m.tasks, m.reaper.value)
  {
    assert PeaceKey(0, m.tasks, m.eps) && PeaceKey(1, m.tasks, m.eps) && PeaceKey(2, m.tasks, m.eps);
    forall t | 0 <= t < TASKS && m.tasks[t].state == Dead && m.tasks[t].waiter.Some?
      ensures Awake(m.tasks, m.tasks[t].waiter.value)
    {
      assert JoinerOk(m.tasks, t, m.tasks[t].waiter.value);
    }
  }

  // ---- every ready task has its turn ----

  /** The processor has gone from c to the nearest task, with a full slice. */
  ghost predicate Nearest(tasks: seq<Tcb>, idle: nat, c: nat, n: nat)
    requires |tasks| == TASKS && c < TASKS && n < TASKS
  {
    tasks[n].slice == SLICE && forall x: nat | Runnable(tasks, idle, x) :: Dist(c, n) <= Dist(c, x)
  }

  lemma HandedNearest(mid: seq<Tcb>, idle: nat, c: nat, tasks: seq<Tcb>, n: nat)
    requires Handed(mid, idle, c, tasks, n) && mid[c].state != Ready
    ensures if n == c then forall x: nat :: !Runnable(tasks, idle, x) else Nearest(tasks, idle, c, n)
  {
    forall x: nat | Runnable(tasks, idle, x) ensures n != c && Dist(c, n) <= Dist(c, x) {
      if x != c {
        assert Runnable(mid, idle, x);
      }
    }
  }

  /** A timer interrupt that counts against the current task's slice. */
  predicate Counts(idle: nat, preempt: bool, m: Moment, ev: Event) {
    ev.Timer? && preempt && m.current < |m.tasks| && (m.tasks[m.current].user || m.current == idle)
  }

  /** A step goes to the nearest ready task, or leaves the current one with no more of its slice than
      before, and with less if it was a tick, while anyone else is ready. */
  ghost predicate Turn(idle: nat, m: Moment, m': Moment, tick: bool)
    requires |m.tasks| == TASKS == |m'.tasks| && m.current < TASKS && m'.current < TASKS
  {
    var c := m.current;
    if m'.current != c then Nearest(m'.tasks, idle, c, m'.current)
    else (exists x :: Runnable(m'.tasks, idle, x)) ==>
           m'.tasks[c].slice <= m.tasks[c].slice && (tick ==> 1 <= m'.tasks[c].slice < m.tasks[c].slice)
  }

  lemma TurnGiven(idle: nat, m: Moment, m': Moment, mid: seq<Tcb>, tick: bool)
    requires |m.tasks| == TASKS && m.current < TASKS && Gives(idle, m, m', mid) && mid[m.current].state != Ready
    ensures Turn(idle, m, m', tick)
  {
    HandedNearest(mid, idle, m.current, m'.tasks, m'.current);
  }

  lemma TurnTicked(idle: nat, preempt: bool, m: Moment, m': Moment)
    requires Safe(idle, m) && Safe(idle, m') && Ticks(idle, preempt, m, m')
    ensures Turn(idle, m, m', preempt)
  {
    var mid := Ticked(m.tasks, m.current, m.now + 1);
    if Ends(mid, idle, m.current, preempt) {
      TurnGiven(idle, m.(now := m.now + 1), m', mid, preempt);
    }
  }

  lemma TurnReceived(idle: nat, m: Moment, m': Moment, e: nat, accept: bool)
    requires Safe(idle, m) && Safe(idle, m') && e < |m.eps| && Received(idle, m, m', e, accept)
    ensures Turn(idle, m, m', false)
  {
    var c := m.current;
    if m.eps[e].count == 0 && m.eps[e].waiter.None? {
      TurnGiven(idle, m.(eps := m.eps[e := Ep(0, Some(c))]), m', Stopped(m.tasks, c, OnEndpoint(e), Receiving(e)),
                false);
    }
  }

  lemma TurnJoined(idle: nat, m: Moment, m': Moment, t: nat)
    requires Safe(idle, m) && Safe(idle, m') && t < TASKS && t != m.current && Joined(idle, m, m', t)
    ensures Turn(idle, m, m', false)
  {
    if !Ended(m.tasks[t].state) {
      TurnGiven(idle, m, m', Waiting(m.tasks, m.current, t), false);
    }
  }

  lemma TurnKilled(idle: nat, m: Moment, m': Moment, t: nat)
    requires Safe(idle, m) && Safe(idle, m') && t < TASKS && Killed(idle, m, m', t)
    ensures Turn(idle, m, m', false)
  {
    if Present(m.tasks[t].state) && t == m.current {
      TurnGiven(idle, m.(eps := LetGo(m.eps, t)), m', Gone(m.tasks, t, m.reaper), false);
    }
  }

  lemma TurnActed(idle: nat, m: Moment, m': Moment, ev: Event)
    requires Safe(idle, m) && Safe(idle, m') && Acted(idle, m, m', ev)
    ensures Turn(idle, m, m', false)
  {
    var c := m.current;
    match ev {
      case Yields => TurnGiven(idle, m, m', Yielded(m.tasks, c), false);
      case Sleeps(n) => TurnGiven(idle, m, m', Sleeper(m.tasks, c, m.now + n), false);
      case Receives(e, accept) =>
        if e < |m.eps| {
          TurnReceived(idle, m, m', e, accept);
        }
      case Exits => TurnKilled(idle, m, m', c);
      case Kills(t) =>
        if t < TASKS && m.tasks[t].user {
          TurnKilled(idle, m, m', t);
        }
      case Joins(t) =>
        if t < TASKS && t != c && !m.tasks[c].user {
          TurnJoined(idle, m, m', t);
        }
      case _ =>
    }
  }

  lemma StepTurns(idle: nat, preempt: bool, m: Moment, m': Moment, ev: Event)
    requires Safe(idle, m) && Safe(idle, m') && Did(idle, preempt, m, m', ev)
    ensures Turn(idle, m, m', Counts(idle, preempt, m, ev))
  {
    var c := m.current;
    var me := m.tasks[c];
    if ev.Timer? {
      if me.user || c == idle {
        TurnTicked(idle, preempt, m, m');
      }
    } else if c == idle {
      TurnGiven(idle, m, m', m.tasks, false);
    } else if m.reaper == Some(c) {
      TurnGiven(idle, m, m', Stopped(Swept(m.tasks), c, Nothing, Working), false);
    } else {
      match me.doing {
        case Receiving(e) =>
          if e < |m.eps| {
            TurnReceived(idle, m, m', e, ev.GoOn? && ev.accept);
          }
        case Joining(t) =>
          if t < TASKS && t != c && !me.user {
            TurnJoined(idle, m, m', t);
          }
        case Working => TurnActed(idle, m, m', ev);
      }
    }
  }

  /** How often the processor has changed hands between two moments. */
  ghost function Switches(trail: seq<Moment>, i: nat, j: nat): nat
    requires i <= j < |trail|
  {
    if i == j then 0 else Switches(trail, i, j - 1) + (if trail[j].current != trail[j - 1].current then 1 else 0)
  }

  /** How often a timer interrupt has counted between two moments. */
  ghost function TicksIn(idle: nat, preempt: bool, trail: seq<Moment>, events: seq<Event>, i: nat, j: nat): nat
    requires i <= j <= |events| < |trail|
  {
    if i == j then 0
    else
      TicksIn(idle, preempt, trail, events, i, j - 1) +
      (if Counts(idle, preempt, trail[j - 1], events[j - 1]) then 1 else 0)
  }

  /** At most so many more ticks until x runs. */
  ghost function Left(m: Moment, x: nat): nat
    requires |m.tasks| == TASKS && m.current < TASKS && x < TASKS
  {
    SLICE * (Dist(m.current, x) - 1) + (if m.tasks[m.current].slice == 0 then 1 else m.tasks[m.current].slice)
  }

  /** x is ready, and not the idle thread. */
  predicate Eligible(idle: nat, m: Moment, x: nat) {
    |m.tasks| == TASKS && m.current < TASKS && Runnable(m.tasks, idle, x)
  }

  lemma Nears(idle: nat, preempt: bool, m: Moment, m': Moment, ev: Event, x: nat)
    requires Safe(idle, m) && Safe(idle, m') && Did(idle, preempt, m, m', ev)
    requires Eligible(idle, m, x) && Eligible(idle, m', x)
    ensures Dist(m'.current, x) + (if m'.current != m.current then 1 else 0) <= Dist(m.current, x)
    ensures Left(m', x) + (if Counts(idle, preempt, m, ev) then 1 else 0) <= Left(m, x)
  {
    StepTurns(idle, preempt, m, m', ev);
    assert Runnable(m'.tasks, idle, x);
    if m'.current != m.current {
      Nearer(m.current, m'.current, x);
    }
  }

  /** While x is ready and not chosen, every switch brings it nearer, and every tick its turn. */
  lemma {:induction false} Approaches(idle: nat, preempt: bool, trail: seq<Moment>, events: seq<Event>, i: nat, j: nat,
                                      x: nat)
    requires Course(idle, preempt, trail, events) && i <= j <= |events| && x < TASKS
    requires forall k | i <= k <= j :: Eligible(idle, trail[k], x)
    ensures Eligible(idle, trail[i], x) && Eligible(idle, trail[j], x)
    ensures Switches(trail, i, j) + Dist(trail[j].current, x) <= Dist(trail[i].current, x)
    ensures TicksIn(idle, preempt, trail, events, i, j) + Left(trail[j], x) <= Left(trail[i], x)
  {
    if i < j {
      Approaches(idle, preempt, trail, events, i, j - 1, x);
      assert StepAt(idle, preempt, trail, events, j - 1);
      assert Eligible(idle, trail[j], x) && Eligible(idle, trail[j - 1], x);
      Nears(idle, preempt, trail[j - 1], trail[j], events[j - 1], x);
    }
  }

  /** A task that stays ready or running is chosen within 31 switches. */
  lemma ChosenBySwitches(idle: nat, preempt: bool, trail: seq<Moment>, events: seq<Event>, i: nat, j: nat, x: nat)
    requires Course(idle, preempt, trail, events) && i <= j <= |events| && x < TASKS && x != idle
    requires forall k | i <= k <= j :: Awake(trail[k].tasks, x)
    requires Switches(trail, i, j) >= TASKS - 1
    ensures exists k | i <= k <= j :: trail[k].current == x
  {
    if forall k | i <= k <= j :: trail[k].current != x {
      ReadyThroughout(idle, preempt, trail, events, i, j, x);
      Approaches(idle, preempt, trail, events, i, j, x);
    }
  }

  /** With preemption, it is chosen within 62 ticks that find user code or the idle thread running. */
  lemma ChosenByTicks(idle: nat, preempt: bool, trail: seq<Moment>, events: seq<Event>, i: nat, j: nat, x: nat)
    requires Course(idle, preempt, trail, events) && i <= j <= |events| && x < TASKS && x != idle
    requires forall k | i <= k <= j :: Awake(trail[k].tasks, x)
    requires TicksIn(idle, preempt, trail, events, i, j) >= SLICE * (TASKS - 1)
    ensures exists k | i <= k <= j :: trail[k].current == x
  {
    if forall k | i <= k <= j :: trail[k].current != x {
      ReadyThroughout(idle, preempt, trail, events, i, j, x);
      SafeAt(idle, preempt, trail, events, i);
      Approaches(idle, preempt, trail, events, i, j, x);
    }
  }

  lemma ReadyThroughout(idle: nat, preempt: bool, trail: seq<Moment>, events: seq<Event>, i: nat, j: nat, x: nat)
    requires Course(idle, preempt, trail, events) && i <= j <= |events| && x < TASKS && x != idle
    requires forall k | i <= k <= j :: Awake(trail[k].tasks, x) && trail[k].current != x
    ensures forall k | i <= k <= j :: Eligible(idle, trail[k], x)
  {
    forall k | i <= k <= j ensures Eligible(idle, trail[k], x) {
      SafeAt(idle, preempt, trail, events, k);
      assert Awake(trail[k].tasks, x) && trail[k].current != x;
    }
  }

  // ---- who waits for a task's end ----

  /** In the loop that waits for t's end. */
  predicate Waits(tasks: seq<Tcb>, w: nat, t: nat) {
    w < |tasks| && tasks[w].state == Blocked && tasks[w].on == Nothing && tasks[w].doing == Joining(t)
  }

  /** Waiting for a task's end, but not known to any task as its waiter. */
  ghost predicate Forgotten(tasks: seq<Tcb>, w: nat) {
    w < |tasks| && tasks[w].doing.Joining? && Waits(tasks, w, tasks[w].doing.t) && tasks[w].started && !tasks[w].user
    && !IsJoiner(tasks, w)
  }

  /** A switch leaves everyone who is blocked as it is. */
  lemma HandedBlocked(mid: seq<Tcb>, idle: nat, c: nat, tasks: seq<Tcb>, n: nat, w: nat)
    requires Handed(mid, idle, c, tasks, n) && w < TASKS && mid[w].state == Blocked && idle < TASKS
    requires Active(mid[idle].state)
    ensures tasks[w] == mid[w]
  {
  }

  /** w is as before, but for who waits for its end, and no more tasks have noted it down. */
  ghost predicate Untouched(tasks: seq<Tcb>, tasks': seq<Tcb>, w: nat) {
    && |tasks| == TASKS == |tasks'| && w < TASKS && tasks'[w] == tasks[w].(waiter := tasks'[w].waiter)
    && forall u | 0 <= u < TASKS && tasks'[u].waiter == Some(w) :: tasks[u].waiter == Some(w)
  }

  lemma UntouchedGiven(idle: nat, m: Moment, m': Moment, mid: seq<Tcb>, w: nat)
    requires Gives(idle, m, m', mid) && Untouched(m.tasks, mid, w) && m.tasks[w].state == Blocked
    requires idle < TASKS && Active(mid[idle].state)
    ensures Untouched(m.tasks, m'.tasks, w)
  {
    HandedBlocked(mid, idle, m.current, m'.tasks, m'.current, w);
  }

  predicate Asleep(tasks: seq<Tcb>, w: nat) {
    w < |tasks| && tasks[w].state == Blocked && tasks[w].on.Asleep?
  }

  /** Blocked, and nothing that other tasks do will wake it. */
  ghost predicate Quiet(tasks: seq<Tcb>, w: nat) {
    Forgotten(tasks, w) || Asleep(tasks, w)
  }

  /** Nobody wakes a task that sleeps, or that is in that loop and not noted down. */
  lemma WakesOthers(idle: nat, m: Moment, w: nat)
    requires Safe(idle, m) && Quiet(m.tasks, w)
    ensures idle < TASKS && w != idle && w != m.current && m.reaper != Some(w) && Active(m.tasks[idle].state)
    ensures forall e | 0 <= e < |m.eps| :: Untouched(m.tasks, Woken(m.tasks, m.eps[e].waiter), w)
    ensures forall t | 0 <= t < TASKS :: Untouched(m.tasks, Woken(m.tasks, Heir(m.tasks, t, m.reaper)), w)
  {
    Facts(m.tasks, m.eps, idle, m.reaper, w);
    assert PeaceKey(0, m.tasks, m.eps) && PeaceKey(1, m.tasks, m.eps) && PeaceKey(2, m.tasks, m.eps);
    assert PeaceKey(3, m.tasks, m.eps);
  }

  lemma UntouchedTicked(idle: nat, preempt: bool, m: Moment, m': Moment, w: nat)
    requires Safe(idle, m) && Ticks(idle, preempt, m, m') && Quiet(m.tasks, w) && !Due(m.tasks[w], m.now + 1)
    ensures Untouched(m.tasks, m'.tasks, w)
  {
    WakesOthers(idle, m, w);
    var mid := Ticked(m.tasks, m.current, m.now + 1);
    if Ends(mid, idle, m.current, preempt) {
      UntouchedGiven(idle, m.(now := m.now + 1), m', mid, w);
    }
  }

  lemma UntouchedReceived(idle: nat, m: Moment, m': Moment, e: nat, accept: bool, w: nat)
    requires Safe(idle, m) && e < |m.eps| && Received(idle, m, m', e, accept) && Quiet(m.tasks, w)
    requires m.current != idle
    ensures Untouched(m.tasks, m'.tasks, w)
  {
    WakesOthers(idle, m, w);
    var c := m.current;
    if m.eps[e].count == 0 && m.eps[e].waiter.None? {
      UntouchedGiven(idle, m.(eps := m.eps[e := Ep(0, Some(c))]), m', Stopped(m.tasks, c, OnEndpoint(e), Receiving(e)),
                     w);
    }
  }

  lemma UntouchedJoined(idle: nat, m: Moment, m': Moment, t: nat, w: nat)
    requires Safe(idle, m) && t < TASKS && t != m.current && Joined(idle, m, m', t) && Quiet(m.tasks, w)
    requires m.current != idle
    ensures Untouched(m.tasks, m'.tasks, w)
  {
    WakesOthers(idle, m, w);
    if !Ended(m.tasks[t].state) {
      UntouchedGiven(idle, m, m', Waiting(m.tasks, m.current, t), w);
    }
  }

  lemma UntouchedGone(idle: nat, m: Moment, m': Moment, t: nat, w: nat)
    requires Safe(idle, m) && t < TASKS && Killed(idle, m, m', t) && Quiet(m.tasks, w) && t != w && t != idle
    ensures Untouched(m.tasks, m'.tasks, w)
  {
    WakesOthers(idle, m, w);
    if Present(m.tasks[t].state) && t == m.current {
      UntouchedGiven(idle, m.(eps := LetGo(m.eps, t)), m', Gone(m.tasks, t, m.reaper), w);
    }
  }

  lemma UntouchedActed(idle: nat, m: Moment, m': Moment, ev: Event, w: nat)
    requires Safe(idle, m) && Acted(idle, m, m', ev) && Quiet(m.tasks, w) && m.current != idle
    requires m.tasks[w].user ==> ev != Kills(w)
    ensures Untouched(m.tasks, m'.tasks, w)
  {
    WakesOthers(idle, m, w);
    var c := m.current;
    match ev {
      case Yields => UntouchedGiven(idle, m, m', Yielded(m.tasks, c), w);
      case Sleeps(n) => UntouchedGiven(idle, m, m', Sleeper(m.tasks, c, m.now + n), w);
      case Receives(e, accept) =>
        if e < |m.eps| {
          UntouchedReceived(idle, m, m', e, accept, w);
        }
      case Exits => UntouchedGone(idle, m, m', c, w);
      case Kills(t) =>
        if t < TASKS && m.tasks[t].user {
          Facts(m.tasks, m.eps, idle, m.reaper, t);
          UntouchedGone(idle, m, m', t, w);
        }
      case Joins(t) =>
        if t < TASKS && t != c && !m.tasks[c].user {
          UntouchedJoined(idle, m, m', t, w);
        }
      case _ =>
    }
  }

  /** A step of another task, and a tick that does not end its sleep. */
  lemma QuietStays(idle: nat, preempt: bool, m: Moment, m': Moment, ev: Event, w: nat)
    requires Safe(idle, m) && Did(idle, preempt, m, m', ev) && Quiet(m.tasks, w) && (m.tasks[w].user ==> ev != Kills(w))
    requires m'.now > m.now ==> !Due(m.tasks[w], m.now + 1)
    ensures Untouched(m.tasks, m'.tasks, w)
  {
    WakesOthers(idle, m, w);
    var c := m.current;
    var me := m.tasks[c];
    if ev.Timer? {
      if me.user || c == idle {
        UntouchedTicked(idle, preempt, m, m', w);
      }
    } else if c == idle {
      UntouchedGiven(idle, m, m', m.tasks, w);
    } else if m.reaper == Some(c) {
      UntouchedGiven(idle, m, m', Stopped(Swept(m.tasks), c, Nothing, Working), w);
    } else {
      match me.doing {
        case Receiving(e) =>
          if e < |m.eps| {
            UntouchedReceived(idle, m, m', e, ev.GoOn? && ev.accept, w);
          }
        case Joining(t) =>
          if t < TASKS && t != c && !me.user {
            UntouchedJoined(idle, m, m', t, w);
          }
        case Working => UntouchedActed(idle, m, m', ev, w);
      }
    }
  }

  lemma ForgottenStays(idle: nat, preempt: bool, m: Moment, m': Moment, ev: Event, w: nat)
    requires Safe(idle, m) && Did(idle, preempt, m, m', ev) && Forgotten(m.tasks, w)
    ensures Untouched(m.tasks, m'.tasks, w) && Forgotten(m'.tasks, w)
  {
    QuietStays(idle, preempt, m, m', ev, w);
  }

  /** A second task that waits for the same end takes the place of the first, which nothing will wake. */
  lemma SecondWaiter(idle: nat, m: Moment, m': Moment, t: nat, w: nat)
    requires Safe(idle, m) && t < TASKS && t != m.current && m.current != idle && !Ended(m.tasks[t].state)
    requires Joined(idle, m, m', t)
    requires m.tasks[t].waiter == Some(w) && w < TASKS && m.tasks[w].state == Blocked && m.tasks[w].started
    ensures Forgotten(m'.tasks, w)
  {
    Facts(m.tasks, m.eps, idle, m.reaper, t);
    assert PeaceKey(1, m.tasks, m.eps) && PeaceKey(3, m.tasks, m.eps);
    var mid := Waiting(m.tasks, m.current, t);
    HandedBlocked(mid, idle, m.current, m'.tasks, m'.current, w);
    forall u | 0 <= u < TASKS ensures m'.tasks[u].waiter != Some(w) {
      assert m.tasks[u].waiter == Some(w) ==> JoinerOk(m.tasks, u, w);
    }
  }

  /** Task 2 waits for task 4's end, and task 3 is about to. */
  function Crowd(): Moment {
    var none := Tcb(Free, Nothing, None, 0, false, false, 0, Working);
    var tasks := seq(TASKS, (i: int) =>
      match i
      case 0 => none.(state := Ready)
      case 1 => none.(state := Ready)
      case 2 => none.(state := Blocked, started := true, doing := Joining(4))
      case 3 => none.(state := Running, started := true, slice := SLICE)
      case 4 => none.(state := Ready, started := true, user := true, waiter := Some(2))
      case _ => none);
    Moment(tasks, [], 3, None, 0)
  }

  lemma TwoWaiters() returns (m': Moment)
    ensures Safe(1, Crowd()) && Waits(Crowd().tasks, 2, 4) && Crowd().tasks[4].waiter == Some(2)
    ensures Did(1, true, Crowd(), m', Joins(4)) && Forgotten(m'.tasks, 2)
  {
    var m := Crowd();
    var mid := Waiting(m.tasks, 3, 4);
    m' := m.(tasks := Switch(mid, 3, 4), current := 4);
    assert Runnable(mid, 1, 4);
    assert Picked(mid, 1, 3, 4);
    forall k | PeaceKey(k, m.tasks, m.eps) ensures PeacePart(k, m.tasks, m.eps, 1, m.reaper) {
    }
    assert Safe(1, m);
    SecondWaiter(1, m, m', 4, 2);
  }

  /** When a task ends, whoever waits for it can run from then on if and only if it is the one that the task
      has noted down. */
  lemma WokenIff(idle: nat, m: Moment, m': Moment, t: nat, w: nat)
    requires Safe(idle, m) && t < TASKS && t != idle && Present(m.tasks[t].state) && Killed(idle, m, m', t)
    requires Waits(m.tasks, w, t) && w != t
    ensures Awake(m'.tasks, w) <==> m.tasks[t].waiter == Some(w)
  {
    Facts(m.tasks, m.eps, idle, m.reaper, w);
    assert PeaceKey(3, m.tasks, m.eps);
    var mid := Gone(m.tasks, t, m.reaper);
    if m.tasks[t].waiter != Some(w) {
      assert mid[w] == m.tasks[w];
      if t == m.current {
        HandedBlocked(mid, idle, t, m'.tasks, m'.current, w);
      }
    } else {
      assert mid[w].state == Ready;
    }
  }

  /** Forgotten once, blocked for ever. */
  lemma {:induction false} ForgottenForEver(idle: nat, preempt: bool, trail: seq<Moment>, events: seq<Event>, i: nat,
                                            j: nat, w: nat)
    requires Course(idle, preempt, trail, events) && i <= j <= |events| && Forgotten(trail[i].tasks, w)
    ensures Forgotten(trail[j].tasks, w) && trail[j].tasks[w].doing == trail[i].tasks[w].doing
  {
    if i < j {
      ForgottenForEver(idle, preempt, trail, events, i, j - 1, w);
      assert StepAt(idle, preempt, trail, events, j - 1);
      ForgottenStays(idle, preempt, trail[j - 1], trail[j], events[j - 1], w);
    }
  }

  // ---- sleep ----

  /** Time goes on by one at most. */
  lemma Clock(idle: nat, preempt: bool, m: Moment, m': Moment, ev: Event)
    requires Safe(idle, m) && Did(idle, preempt, m, m', ev)
    ensures m.now <= m'.now <= m.now + 1 && (m'.now > m.now ==> ev.Timer? && Ticks(idle, preempt, m, m'))
  {
  }

  /** The tick at which a sleep is over. */
  lemma Rises(idle: nat, preempt: bool, m: Moment, m': Moment, w: nat)
    requires Safe(idle, m) && Ticks(idle, preempt, m, m') && Asleep(m.tasks, w) && m.now + 1 >= m.tasks[w].wakeAt
    ensures Awake(m'.tasks, w)
  {
    var mid := Ticked(m.tasks, m.current, m.now + 1);
    assert mid[w].state == Ready;
  }

  /** Going to sleep. */
  lemma Falls(idle: nat, preempt: bool, m: Moment, m': Moment, n: nat)
    requires Safe(idle, m) && Did(idle, preempt, m, m', Sleeps(n)) && m.tasks[m.current].doing == Working
    requires m.current != idle && m.reaper != Some(m.current)
    ensures Asleep(m'.tasks, m.current) && m'.tasks[m.current].wakeAt == m.now + n && m'.now == m.now
  {
    Facts(m.tasks, m.eps, idle, m.reaper, m.current);
    assert PeaceKey(3, m.tasks, m.eps);
    HandedBlocked(Sleeper(m.tasks, m.current, m.now + n), idle, m.current, m'.tasks, m'.current, m.current);
  }

  /** Its time has not come, or no tick has. */
  predicate Early(now: nat, since: nat, until: nat) {
    now < until || now == since
  }

  lemma {:induction false} SleepsOn(idle: nat, preempt: bool, trail: seq<Moment>, events: seq<Event>, i: nat, j: nat,
                                    w: nat)
    requires Course(idle, preempt, trail, events) && i <= j <= |events| && Asleep(trail[i].tasks, w)
    requires forall k | i <= k < j :: events[k] != Kills(w)
    requires Early(trail[j].now, trail[i].now, trail[i].tasks[w].wakeAt)
    ensures trail[i].now <= trail[j].now && Asleep(trail[j].tasks, w)
    ensures trail[j].tasks[w].wakeAt == trail[i].tasks[w].wakeAt
    decreases j
  {
    if i < j {
      assert StepAt(idle, preempt, trail, events, j - 1);
      var m, m' := trail[j - 1], trail[j];
      Clock(idle, preempt, m, m', events[j - 1]);
      NoEarlier(idle, preempt, trail, events, i, j - 1);
      SleepsOn(idle, preempt, trail, events, i, j - 1, w);
      QuietStays(idle, preempt, m, m', events[j - 1], w);
    }
  }

  lemma {:induction false} NoEarlier(idle: nat, preempt: bool, trail: seq<Moment>, events: seq<Event>, i: nat, j: nat)
    requires Course(idle, preempt, trail, events) && i <= j <= |events|
    ensures trail[i].now <= trail[j].now
    decreases j
  {
    if i < j {
      assert StepAt(idle, preempt, trail, events, j - 1);
      NoEarlier(idle, preempt, trail, events, i, j - 1);
      Clock(idle, preempt, trail[j - 1], trail[j], events[j - 1]);
    }
  }

  /** A task that sleeps for n ticks, unless it is killed, is blocked until then, though for one tick at least, and
      can run from the moment on at which that time has come. */
  lemma WakesOnTime(idle: nat, preempt: bool, trail: seq<Moment>, events: seq<Event>, i: nat, j: nat, n: nat)
    requires Course(idle, preempt, trail, events) && i < j <= |events| && events[i] == Sleeps(n)
    requires var m := trail[i];
             |m.tasks| == TASKS && m.current < TASKS && m.tasks[m.current].doing == Working && m.current != idle
             && m.reaper != Some(m.current)
    requires forall k | i < k < j :: events[k] != Kills(trail[i].current)
    ensures var w, since := trail[i].current, trail[i].now;
            && (Early(trail[j].now, since, since + n) ==> Asleep(trail[j].tasks, w))
            && (!Early(trail[j].now, since, since + n) && Early(trail[j - 1].now, since, since + n) ==>
                  Awake(trail[j].tasks, w))
  {
    var w := trail[i].current;
    assert StepAt(idle, preempt, trail, events, i) && StepAt(idle, preempt, trail, events, j - 1);
    Falls(idle, preempt, trail[i], trail[i + 1], n);
    if Early(trail[j].now, trail[i].now, trail[i].now + n) {
      SleepsOn(idle, preempt, trail, events, i + 1, j, w);
    } else if Early(trail[j - 1].now, trail[i].now, trail[i].now + n) && i + 1 < j {
      SleepsOn(idle, preempt, trail, events, i + 1, j - 1, w);
      Clock(idle, preempt, trail[j - 1], trail[j], events[j - 1]);
      Rises(idle, preempt, trail[j - 1], trail[j], w);
    }
  }
}
