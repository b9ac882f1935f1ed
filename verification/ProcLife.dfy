/** What becomes of a process, told by the events of a run: the state and the list each call of kernel/proc.c leaves it
    in, and how long it stays there. */
module ProcLife {
  import opened Params
  import opened ProcStates
  import L = ProcLists

  /** Unused; allocated by fork and not yet queued; queued on a list, or on the way there; on a CPU; asleep; exited. */
  datatype Life = Free | Born | Ready(list: nat) | OnCpu(c: nat) | Slept | Dead

  /** The event that decides what p is next: scheduler, yield, exit, sleep, userinit and allocproc, fork, freeproc,
      wakeup (to CPU 0) and kill (to the CPU of the process). */
  ghost function NewLife(s: State, e: Event, p: nat): Option<Life>
    requires Shape(s) && Enabled(s, e) && p < NPROC
  {
    var pc := s.cpus[e.c];
    match e
    case SchedRun(c) => if pc.p == p then Some(OnCpu(c)) else None
    case Yield(_) => if pc.p == p then Some(Ready(3 + s.cpuNum[p])) else None
    case Exit(_) => if pc.p == p then Some(Dead) else None
    case Asleep(_) => if pc.p == p then Some(Slept) else None
    case AllocDone(_) => if pc.np == p then Some(if pc.ret.InProc? then Born else Ready(3)) else None
    case ForkRun(_) => if s.child[pc.p].value == p then Some(Ready(3 + s.cpuNum[pc.p])) else None
    case Freed(_) => if pc.q == p then Some(Free) else None
    case Wakeup(_, q) => if q == p then Some(Ready(3)) else None
    case Kill(_, q) => if q == p then Some(Ready(3 + s.cpuNum[p])) else None
    case _ => None
  }

  ghost function After(s: State, e: Event, p: nat, life: Life): Life
    requires Shape(s) && Enabled(s, e) && p < NPROC
  {
    var n := NewLife(s, e, p);
    if n.Some? then n.value else life
  }

  /** What p is after the first i events. */
  ghost function LifeOf(states: seq<State>, events: seq<Event>, i: nat, p: nat): Life
    requires Run(states, events) && i <= |events| && p < NPROC
  {
    if i == 0 then Free else After(states[i - 1], events[i - 1], p, LifeOf(states, events, i - 1, p))
  }

  // ---- the states agree with it

  /** The CPU that has locked p is adding it to list l. */
  ghost predicate Coming(s: State, p: nat, l: nat)
    requires Shape(s) && p < NPROC
  {
    s.lock[p].Some? && CallIs(CallOf(s.lists, s.lock[p].value), L.Add, l, p)
  }

  /** The CPU that has locked p is taking it off the sleepers, to queue it on list l. */
  ghost predicate Roused(s: State, p: nat)
    requires Shape(s) && p < NPROC
  {
    s.lock[p].Some? && s.lock[p].value < NCPU && s.cpus[s.lock[p].value].Waking? && s.cpus[s.lock[p].value].q == p
  }

  ghost predicate Rousing(s: State, p: nat, l: nat)
    requires Shape(s) && p < NPROC
  {
    Roused(s, p) && s.cpus[s.lock[p].value].dest == l
  }

  ghost predicate IsReady(s: State, p: nat, l: nat)
    requires Shape(s) && p < NPROC
  {
    && 3 <= l < L.NLISTS == |s.lists.m.abs|
    && (Rousing(s, p, l) || (s.st[p] == RUNNABLE && (p in s.lists.m.abs[l] || Coming(s, p, l))))
  }

  ghost predicate LifeOk(s: State, p: nat, life: Life)
    requires Shape(s) && p < NPROC
  {
    match life
    case Free => s.st[p] == UNUSED
    case Born => s.st[p] == USED
    case Ready(l) => IsReady(s, p, l)
    case OnCpu(c) => c < NCPU && s.st[p] == RUNNING && Current(s.cpus[c]) == Some(p)
    case Slept => s.st[p] == SLEEPING && !Roused(s, p)
    case Dead => s.st[p] == ZOMBIE
  }

  /** p has a queue entry to come, or one that only its lock holder can take away. */
  lemma ListStepReady(s: State, e: Event, p: nat, l: nat)
    requires Inv(s) && Enabled(s, e) && e.ListStep? && p < NPROC && IsReady(s, p, l)
    ensures IsReady(Apply(s, e), p, l)
  {
    L.StepEffect(s.lists, e.e);
    assert ProcOk(s, p);
    if !Rousing(s, p, l) {
      if s.lock[p] == Some(e.c) { OwnStepReady(s, e, p, l); } else { ListStepOther(s, e.e, p); }
    }
  }

  lemma OwnStepReady(s: State, e: Event, p: nat, l: nat)
    requires Inv(s) && Enabled(s, e) && e.ListStep? && p < NPROC && IsReady(s, p, l) && !Rousing(s, p, l)
    requires s.lock[p] == Some(e.c)
    ensures IsReady(Apply(s, e), p, l)
  {
    L.StepEffect(s.lists, e.e);
    assert CpuOk(s, e.c) && ProcOk(s, p);
    if e.c !in Apply(s, e).lists.calls { L.ReturnedPlace(s.lists, e.e); }
  }

  lemma ListStepLife(s: State, e: Event, p: nat, life: Life)
    requires Inv(s) && Enabled(s, e) && e.ListStep? && p < NPROC && LifeOk(s, p, life)
    ensures LifeOk(Apply(s, e), p, life)
  {
    if life.Ready? { ListStepReady(s, e, p, life.list); }
  }

  /** What the invariant says of the CPU that moves and of the process. */
  lemma Facts(s: State, c: nat, p: nat)
    requires Inv(s) && c < NCPU && p < NPROC
    ensures CpuOk(s, c) && ProcOk(s, p) && |s.lists.m.abs| == L.NLISTS
    ensures s.lock[p].Some? ==> CpuOk(s, s.lock[p].value)
  {
    assert ProcOk(s, p);
  }

  lemma SchedulerLife(s: State, e: Event, p: nat, life: Life)
    requires Inv(s) && Enabled(s, e) && p < NPROC && LifeOk(s, p, life)
    requires e.SchedPeek? || e.SchedNone? || e.SchedPick? || e.Dispatch?
    ensures LifeOk(Apply(s, e), p, After(s, e, p, life))
  {
    Facts(s, e.c, p);
  }

  lemma SchedRunLife(s: State, e: Event, p: nat, life: Life)
    requires Inv(s) && Enabled(s, e) && p < NPROC && LifeOk(s, p, life) && (e.SchedRun?)
    ensures LifeOk(Apply(s, e), p, After(s, e, p, life))
  {
    Facts(s, e.c, p);
  }

  lemma YieldLife(s: State, e: Event, p: nat, life: Life)
    requires Inv(s) && Enabled(s, e) && p < NPROC && LifeOk(s, p, life) && (e.Yield?)
    ensures LifeOk(Apply(s, e), p, After(s, e, p, life))
  {
    Facts(s, e.c, p);
  }

  lemma ExitLife(s: State, e: Event, p: nat, life: Life)
    requires Inv(s) && Enabled(s, e) && p < NPROC && LifeOk(s, p, life) && (e.Exit?)
    ensures LifeOk(Apply(s, e), p, After(s, e, p, life))
  {
    Facts(s, e.c, p);
  }

  lemma SleepLife(s: State, e: Event, p: nat, life: Life)
    requires Inv(s) && Enabled(s, e) && p < NPROC && LifeOk(s, p, life) && (e.Sleep? || e.Asleep?)
    ensures LifeOk(Apply(s, e), p, After(s, e, p, life))
  {
    Facts(s, e.c, p);
  }

  lemma SchedLife(s: State, e: Event, p: nat, life: Life)
    requires Inv(s) && Enabled(s, e) && p < NPROC && LifeOk(s, p, life) && (e.Sched? || e.Queued?)
    ensures LifeOk(Apply(s, e), p, After(s, e, p, life))
  {
    Facts(s, e.c, p);
  }

  lemma PeekLife(s: State, e: Event, p: nat, life: Life)
    requires Inv(s) && Enabled(s, e) && p < NPROC && LifeOk(s, p, life) && (e.ForkPeek? || e.BootPeek?)
    ensures LifeOk(Apply(s, e), p, After(s, e, p, life))
  {
    Facts(s, e.c, p);
  }

  lemma PickLife(s: State, e: Event, p: nat, life: Life)
    requires Inv(s) && Enabled(s, e) && p < NPROC && LifeOk(s, p, life) && (e.AllocNone? || e.AllocPick?)
    ensures LifeOk(Apply(s, e), p, After(s, e, p, life))
  {
    Facts(s, e.c, p);
  }

  lemma SetCpuLife(s: State, e: Event, p: nat, life: Life)
    requires Inv(s) && Enabled(s, e) && p < NPROC && LifeOk(s, p, life) && e.SetCpu?
    ensures LifeOk(Apply(s, e), p, After(s, e, p, life))
  {
    Facts(s, e.c, p);
  }

  lemma AllocLockLife(s: State, e: Event, p: nat, life: Life)
    requires Inv(s) && Enabled(s, e) && p < NPROC && LifeOk(s, p, life) && e.AllocLock?
    ensures LifeOk(Apply(s, e), p, After(s, e, p, life))
  {
    Facts(s, e.c, p);
  }

  lemma AllocDoneLife(s: State, e: Event, p: nat, life: Life)
    requires Inv(s) && Enabled(s, e) && p < NPROC && LifeOk(s, p, life) && e.AllocDone?
    ensures LifeOk(Apply(s, e), p, After(s, e, p, life))
  {
    if s.cpus[e.c].ret.InProc? { ChildLife(s, e, p, life); } else { FirstLife(s, e, p, life); }
  }

  lemma ChildLife(s: State, e: Event, p: nat, life: Life)
    requires Inv(s) && Enabled(s, e) && p < NPROC && LifeOk(s, p, life) && e.AllocDone? && s.cpus[e.c].ret.InProc?
    ensures LifeOk(Apply(s, e), p, After(s, e, p, life))
  {
    Facts(s, e.c, p);
  }

  lemma FirstLife(s: State, e: Event, p: nat, life: Life)
    requires Inv(s) && Enabled(s, e) && p < NPROC && LifeOk(s, p, life) && e.AllocDone? && !s.cpus[e.c].ret.InProc?
    ensures LifeOk(Apply(s, e), p, After(s, e, p, life))
  {
    Facts(s, e.c, p);
  }

  lemma ForkLife(s: State, e: Event, p: nat, life: Life)
    requires Inv(s) && Enabled(s, e) && p < NPROC && LifeOk(s, p, life) && (e.ForkRun?)
    ensures LifeOk(Apply(s, e), p, After(s, e, p, life))
  {
    Facts(s, e.c, p);
  }

  lemma ReapLife(s: State, e: Event, p: nat, life: Life)
    requires Inv(s) && Enabled(s, e) && p < NPROC && LifeOk(s, p, life) && e.Reap?
    ensures LifeOk(Apply(s, e), p, After(s, e, p, life))
  {
    Facts(s, e.c, p);
  }

  lemma FreedLife(s: State, e: Event, p: nat, life: Life)
    requires Inv(s) && Enabled(s, e) && p < NPROC && LifeOk(s, p, life) && e.Freed?
    ensures LifeOk(Apply(s, e), p, After(s, e, p, life))
  {
    Facts(s, e.c, p);
  }

  lemma WakeupLife(s: State, e: Event, p: nat, life: Life)
    requires Inv(s) && Enabled(s, e) && p < NPROC && LifeOk(s, p, life) && e.Wakeup?
    ensures LifeOk(Apply(s, e), p, After(s, e, p, life))
  {
    Facts(s, e.c, p);
  }

  lemma KillLife(s: State, e: Event, p: nat, life: Life)
    requires Inv(s) && Enabled(s, e) && p < NPROC && LifeOk(s, p, life) && e.Kill?
    ensures LifeOk(Apply(s, e), p, After(s, e, p, life))
  {
    Facts(s, e.c, p);
  }

  lemma WokenLife(s: State, e: Event, p: nat, life: Life)
    requires Inv(s) && Enabled(s, e) && p < NPROC && LifeOk(s, p, life) && e.Woken?
    ensures LifeOk(Apply(s, e), p, After(s, e, p, life))
  {
    Facts(s, e.c, p);
  }

  lemma StepLife(s: State, e: Event, p: nat, life: Life)
    requires Inv(s) && Enabled(s, e) && p < NPROC && LifeOk(s, p, life)
    ensures Shape(Apply(s, e)) && LifeOk(Apply(s, e), p, After(s, e, p, life))
  {
    StepKeeps(s, e);
    if e.ListStep? {
      ListStepLife(s, e, p, life);
    } else if ForkEvent(e) {
      BirthLife(s, e, p, life);
    } else {
      OtherLife(s, e, p, life);
    }
  }

  predicate ForkEvent(e: Event) {
    e.AllocLock? || e.AllocDone? || e.ForkRun? || e.Wakeup? || e.Kill? || e.Woken?
  }

  lemma BirthLife(s: State, e: Event, p: nat, life: Life)
    requires Inv(s) && Enabled(s, e) && p < NPROC && LifeOk(s, p, life) && ForkEvent(e)
    ensures LifeOk(Apply(s, e), p, After(s, e, p, life))
  {
    if e.AllocLock? {
      AllocLockLife(s, e, p, life);
    } else if e.AllocDone? {
      AllocDoneLife(s, e, p, life);
    } else if e.ForkRun? {
      ForkLife(s, e, p, life);
    } else if e.Wakeup? {
      WakeupLife(s, e, p, life);
    } else if e.Kill? {
      KillLife(s, e, p, life);
    } else {
      WokenLife(s, e, p, life);
    }
  }

  lemma OtherLife(s: State, e: Event, p: nat, life: Life)
    requires Inv(s) && Enabled(s, e) && p < NPROC && LifeOk(s, p, life) && !e.ListStep? && !ForkEvent(e)
    ensures LifeOk(Apply(s, e), p, After(s, e, p, life))
  {
    if e.SchedRun? {
      SchedRunLife(s, e, p, life);
    } else if e.Yield? {
      YieldLife(s, e, p, life);
    } else if e.Exit? {
      ExitLife(s, e, p, life);
    } else if e.Sleep? || e.Asleep? {
      SleepLife(s, e, p, life);
    } else if e.Sched? || e.Queued? {
      SchedLife(s, e, p, life);
    } else if e.Reap? {
      ReapLife(s, e, p, life);
    } else if e.Freed? {
      FreedLife(s, e, p, life);
    } else if e.SchedPeek? || e.SchedNone? || e.SchedPick? || e.Dispatch? {
      SchedulerLife(s, e, p, life);
    } else if e.ForkPeek? || e.BootPeek? {
      PeekLife(s, e, p, life);
    } else if e.SetCpu? {
      SetCpuLife(s, e, p, life);
    } else {
      PickLife(s, e, p, life);
    }
  }

  lemma {:induction false} LifeIs(states: seq<State>, events: seq<Event>, i: nat, p: nat)
    requires Run(states, events) && i <= |events| && p < NPROC
    ensures Inv(states[i]) && LifeOk(states[i], p, LifeOf(states, events, i, p))
  {
    RunKeeps(states, events, i);
    if i > 0 {
      LifeIs(states, events, i - 1, p);
      StepLife(states[i - 1], events[i - 1], p, LifeOf(states, events, i - 1, p));
    }
  }

  // ---- what that means

  /** p is in state st, on list l and no other (or on none), and no CPU runs it. */
  ghost predicate Rests(s: State, p: nat, st: PState, l: Option<nat>)
    requires Shape(s) && p < NPROC
  {
    && s.st[p] == st && (forall c :: 0 <= c < NCPU ==> s.current[c] != Some(p))
    && forall k :: 0 <= k < |s.lists.m.abs| ==> (p in s.lists.m.abs[k] <==> l == Some(k))
  }

  ghost predicate AtHome(s: State, p: nat, life: Life)
    requires Shape(s) && p < NPROC
  {
    match life
    case Free => Rests(s, p, UNUSED, Some(0))
    case Born => Rests(s, p, USED, None)
    case Ready(l) => 3 <= l < L.NLISTS && Rests(s, p, RUNNABLE, Some(l))
    case Slept => Rests(s, p, SLEEPING, Some(2))
    case Dead => Rests(s, p, ZOMBIE, Some(1))
    case OnCpu(c) => c < NCPU && s.st[p] == RUNNING && s.current[c] == Some(p) && Nowhere(s.lists.m.abs, p)
  }

  lemma Resting(s: State, p: nat, l: nat)
    requires Inv(s) && p < NPROC && s.lock[p] == None && l < L.NLISTS && p in s.lists.m.abs[l]
    ensures s.st[p] != RUNNING && Fits(s.st[p], l) && Rests(s, p, s.st[p], Some(l))
  {
    assert ProcOk(s, p);
    forall c | 0 <= c < NCPU ensures s.current[c] != Some(p) { assert CpuOk(s, c); }
  }

  /** Whenever p->lock is free, p is where the last call that moved it has put it: on the unused list after freeproc, on
      none after allocproc, on CPU 0's queue after wakeup and userinit, on its own CPU's after yield and kill, on its
      parent's CPU's after fork, on the sleeping list after sleep, on the zombie list after exit; on a CPU after the
      scheduler took it. */
  lemma Settled(states: seq<State>, events: seq<Event>, i: nat, p: nat)
    requires Run(states, events) && i <= |events| && p < NPROC && Shape(states[i]) && states[i].lock[p] == None
    ensures AtHome(states[i], p, LifeOf(states, events, i, p))
  {
    LifeIs(states, events, i, p);
    var s, life := states[i], LifeOf(states, events, i, p);
    assert ProcOk(s, p);
    if life.OnCpu? {
      assert CpuOk(s, life.c);
    } else if life.Born? {
      forall c | 0 <= c < NCPU ensures s.current[c] != Some(p) { assert CpuOk(s, c); }
    } else {
      var l :| 0 <= l < |s.lists.m.abs| && p in s.lists.m.abs[l] && Fits(s.st[p], l);
      Resting(s, p, l);
      if life.Ready? { Resting(s, p, life.list); }
    }
  }

  /** A process that has a life gets only these others. */
  predicate Follows(life: Life, next: Life) {
    match life
    case Free => next == Born || next == Ready(3)
    case Born => next.Ready?
    case Ready(l) => next.OnCpu? && l == 3 + next.c
    case OnCpu(_) => next.Ready? || next.Slept? || next.Dead?
    case Slept => next.Ready?
    case Dead => next.Free?
  }

  lemma Succession(states: seq<State>, events: seq<Event>, i: nat, p: nat)
    requires Run(states, events) && i < |events| && p < NPROC && NewLife(states[i], events[i], p).Some?
    ensures Follows(LifeOf(states, events, i, p), LifeOf(states, events, i + 1, p))
  {
    LifeIs(states, events, i, p);
    StepFollows(states[i], events[i], p, LifeOf(states, events, i, p));
  }

  lemma StepFollows(s: State, e: Event, p: nat, life: Life)
    requires Inv(s) && Enabled(s, e) && p < NPROC && LifeOk(s, p, life) && NewLife(s, e, p).Some?
    ensures Follows(life, NewLife(s, e, p).value)
  {
    Facts(s, e.c, p);
    if e.SchedRun? {
      PickedReady(s, e.c, p);
    } else if e.ForkRun? {
      assert ProcOk(s, s.cpus[e.c].p);
    }
  }

  /** The scheduler picks from its own queue. */
  lemma PickedReady(s: State, c: nat, p: nat)
    requires Inv(s) && Enabled(s, SchedRun(c)) && s.cpus[c].p == p < NPROC
    ensures s.st[p] == RUNNABLE && |s.lists.m.abs| == L.NLISTS && p in s.lists.m.abs[3 + c]
    ensures forall l :: 0 <= l < L.NLISTS && p in s.lists.m.abs[l] ==> l == 3 + c
  {
    assert CpuOk(s, c);
    SeenFirst(s, c, RunnableList(c), p);
    Placed(s, p, RunnableList(c));
  }

  // ---- exit

  /** CPU c is on its way from exit to the scheduler with p, or has got there. */
  ghost predicate Leaving(s: State, p: nat, c: nat)
    requires Shape(s) && p < NPROC
  {
    && c < NCPU && s.st[p] == ZOMBIE
    && (s.lock[p] == None || (s.lock[p] == Some(c) && s.cpus[c] == Parking(p)))
  }

  lemma LeavingStep(s: State, e: Event, p: nat, c: nat)
    requires Inv(s) && Enabled(s, e) && p < NPROC && Leaving(s, p, c) && !(e.Reap? && e.q == p)
    ensures Shape(Apply(s, e)) && Leaving(Apply(s, e), p, c)
    ensures s.lock[p] == None || e == Sched(c) ==> Apply(s, e).lock[p] == None
  {
    StepKeeps(s, e);
    StepLife(s, e, p, Dead);
    Facts(s, e.c, p);
    if NewLife(s, e, p).Some? { StepFollows(s, e, p, Dead); }
    if e.ListStep? {
      assert Apply(s, e).cpus == s.cpus && Apply(s, e).lock == s.lock;
    } else if Lets(e) {
      LockLet(s, e, p);
    } else {
      LockTaken(s, e, p);
    }
  }

  /** Steps that may release p->lock; the others may take it. */
  predicate Lets(e: Event) {
    e.Dispatch? || e.Sched? || e.AllocDone? || e.Queued? || e.Freed? || e.Woken? || e.Asleep? || e.SetCpu?
  }

  lemma LockLet(s: State, e: Event, p: nat)
    requires Inv(s) && Enabled(s, e) && p < NPROC && Lets(e)
    ensures Apply(s, e).lock[p] == s.lock[p] || Apply(s, e).lock[p] == None
    ensures s.lock[p].Some? && Apply(s, e).lock[p] == None ==> s.lock[p] == Some(e.c)
    ensures forall c :: 0 <= c < NCPU && c != e.c ==> Apply(s, e).cpus[c] == s.cpus[c]
    ensures s.cpus[e.c] == Parking(p) ==> e == Sched(e.c) || Apply(s, e).cpus[e.c] == s.cpus[e.c]
    ensures e.Sched? && s.cpus[e.c] == Parking(p) ==> Apply(s, e).lock[p] == None
  {
    assert CpuOk(s, e.c);
  }

  lemma LockTaken(s: State, e: Event, p: nat)
    requires Inv(s) && Enabled(s, e) && p < NPROC && !e.ListStep? && !Lets(e) && s.st[p] == ZOMBIE
    requires !(e.Reap? && e.q == p)
    ensures Apply(s, e).lock[p] == s.lock[p]
    ensures forall c :: 0 <= c < NCPU && c != e.c ==> Apply(s, e).cpus[c] == s.cpus[c]
    ensures s.cpus[e.c] != Parking(p)
  {
    Facts(s, e.c, p);
    if e.SchedRun? { PickedReady(s, e.c, s.cpus[e.c].p); }
    if e.AllocLock? {
      SeenFirst(s, e.c, UNUSED_LIST, s.cpus[e.c].np);
      Placed(s, s.cpus[e.c].np, UNUSED_LIST);
    }
    if e.ForkRun? { assert ProcOk(s, s.cpus[e.c].p); }
  }

  lemma LeavingNext(states: seq<State>, events: seq<Event>, j: nat, p: nat, c: nat)
    requires Run(states, events) && j < |events| && p < NPROC && Shape(states[j]) && Leaving(states[j], p, c)
    requires !(events[j].Reap? && events[j].q == p)
    ensures Shape(states[j + 1]) && Leaving(states[j + 1], p, c)
    ensures states[j].lock[p] == None || events[j] == Sched(c) ==> states[j + 1].lock[p] == None
  {
    RunKeeps(states, events, j);
    LeavingStep(states[j], events[j], p, c);
  }

  lemma {:induction false} LeavesOnce(states: seq<State>, events: seq<Event>, i: nat, k: nat, j: nat, p: nat, c: nat)
    requires Run(states, events) && i <= k < j <= |events| && p < NPROC && Shape(states[i]) && Leaving(states[i], p, c)
    requires events[k] == Sched(c) && forall h :: i <= h < j ==> !(events[h].Reap? && events[h].q == p)
    ensures Shape(states[j]) && Leaving(states[j], p, c) && states[j].lock[p] == None
    decreases j - i
  {
    LeavingNext(states, events, i, p, c);
    if i < k {
      LeavesOnce(states, events, i + 1, k, j, p, c);
    } else {
      StaysOff(states, events, i + 1, j, p, c);
    }
  }

  lemma {:induction false} StaysOff(states: seq<State>, events: seq<Event>, i: nat, j: nat, p: nat, c: nat)
    requires Run(states, events) && i <= j <= |events| && p < NPROC && Shape(states[i]) && Leaving(states[i], p, c)
    requires states[i].lock[p] == None && forall h :: i <= h < j ==> !(events[h].Reap? && events[h].q == p)
    ensures Shape(states[j]) && Leaving(states[j], p, c) && states[j].lock[p] == None
    decreases j - i
  {
    if i < j {
      LeavingNext(states, events, i, p, c);
      StaysOff(states, events, i + 1, j, p, c);
    }
  }

  lemma ExitLeaves(states: seq<State>, events: seq<Event>, i: nat, p: nat)
    requires Run(states, events) && i < |events| && p < NPROC && Shape(states[i]) && Shape(states[i + 1])
    requires events[i].Exit? && events[i].c < NCPU && states[i].cpus[events[i].c] == Running(p)
    ensures Leaving(states[i + 1], p, events[i].c)
  {
  }

  /** Once a process that exits is off its CPU, it is a zombie, on the zombie list and on no CPU, until wait reaps
      it. */
  lemma ZombieUntilReaped(states: seq<State>, events: seq<Event>, i: nat, k: nat, j: nat, p: nat)
    requires Run(states, events) && i < k < j <= |events| && p < NPROC && Shape(states[i]) && Shape(states[j])
    requires events[i].Exit? && events[i].c < NCPU && states[i].cpus[events[i].c] == Running(p)
    requires events[k] == Sched(events[i].c)
    requires forall h :: i < h < j ==> !(events[h].Reap? && events[h].q == p)
    ensures Rests(states[j], p, ZOMBIE, Some(1)) && states[j].lock[p] == None
  {
    RunShape(states, events, i + 1);
    ExitLeaves(states, events, i, p);
    LeavesOnce(states, events, i + 1, k, j, p, events[i].c);
    RunKeeps(states, events, j);
    ZombieRests(states[j], p);
  }

  lemma ZombieRests(s: State, p: nat)
    requires Inv(s) && p < NPROC && s.st[p] == ZOMBIE && s.lock[p] == None
    ensures Rests(s, p, ZOMBIE, Some(1))
  {
    assert ProcOk(s, p);
    Resting(s, p, 1);
  }

  // ---- set_cpu

  lemma RunShape(states: seq<State>, events: seq<Event>, i: nat)
    requires Run(states, events) && i <= |events|
    ensures Shape(states[i])
  {
    RunKeeps(states, events, i);
  }

  /** The CPU process p last chose for itself, or 0. */
  ghost function Chose(states: seq<State>, events: seq<Event>, i: nat, p: nat): nat
    requires |states| == |events| + 1 && i <= |events|
  {
    if i == 0 then 0
    else
      var s := states[i - 1];
      var e := events[i - 1];
      if e.SetCpu? && e.c < |s.cpus| && s.cpus[e.c] == Running(p) then e.n else Chose(states, events, i - 1, p)
  }

  lemma {:induction false} CpuIs(states: seq<State>, events: seq<Event>, i: nat, p: nat)
    requires Run(states, events) && i <= |events| && p < NPROC
    ensures |states[i].cpuNum| == NPROC && states[i].cpuNum[p] == Chose(states, events, i, p)
  {
    if i > 0 {
      CpuIs(states, events, i - 1, p);
      NextCpu(states, events, i - 1, p);
    }
  }

  lemma NextCpu(states: seq<State>, events: seq<Event>, i: nat, p: nat)
    requires Run(states, events) && i < |events| && p < NPROC
    ensures var s, e := states[i], events[i];
      && e.c < |s.cpus| && |states[i + 1].cpuNum| == |s.cpuNum| == NPROC
      && states[i + 1].cpuNum[p] == if e.SetCpu? && s.cpus[e.c] == Running(p) then e.n else s.cpuNum[p]
  {
    RunShape(states, events, i + 1);
    StepCpuNum(states[i], events[i], p);
  }

  lemma StepCpuNum(s: State, e: Event, p: nat)
    requires Shape(s) && Enabled(s, e) && p < NPROC && |Apply(s, e).cpuNum| == NPROC
    ensures Apply(s, e).cpuNum[p] == if e.SetCpu? && s.cpus[e.c] == Running(p) then e.n else s.cpuNum[p]
  {
  }

  // ---- userinit

  lemma StepBoots(s: State, e: Event)
    requires Shape(s) && Enabled(s, e)
    ensures Apply(s, e).booted == (s.booted || e.BootPeek?)
    ensures e.BootPeek? ==> !s.booted
  {
  }

  lemma {:induction false} Booted(states: seq<State>, events: seq<Event>, i: nat, j: nat)
    requires Run(states, events) && i < j <= |events| && events[i].BootPeek?
    ensures states[j].booted
    decreases j
  {
    StepBoots(states[j - 1], events[j - 1]);
    if i + 1 < j { Booted(states, events, i, j - 1); }
  }

  /** The first process is made once. */
  lemma BootsOnce(states: seq<State>, events: seq<Event>, i: nat, j: nat)
    requires Run(states, events) && i < j < |events| && events[i].BootPeek?
    ensures !events[j].BootPeek?
  {
    Booted(states, events, i, j);
    StepBoots(states[j], events[j]);
  }
}
