/** Process states, the scheduler and the lists together (kernel/proc.c): eight CPUs that schedule, yield,
    sleep, wake, kill, fork, exit and reap, with every list call running as its own lock-coupled steps. */
module ProcStates {
  import opened Params
  import B = ProcInit
  import L = ProcLists

  const NPROC: nat := L.NPROC
  const NCPU: nat := L.NCPU
  const UNUSED_LIST: nat := B.UNUSED_LIST
  const ZOMBIE_LIST: nat := 1
  const SLEEPING_LIST: nat := 2

  function RunnableList(cpu: nat): nat { 3 + cpu }

  datatype PState = UNUSED | USED | SLEEPING | RUNNABLE | RUNNING | ZOMBIE

  /** What a CPU returns to after a helper such as wakeup: the scheduler loop or process p. */
  datatype Ret = InScheduler | InProc(p: nat)

  /** The program counter of one CPU.
      Peeking, Picked: the scheduler reads its list's first element, then waits for that p->lock.
      Chosen: p is RUNNING and being taken off the list. Running: p executes, p->lock released.
      FallAsleep: sleep is adding p to the sleeping list. Parking: p, already in its new state, is going
      onto a list and then back to the scheduler. AllocPeek, AllocPicked, Alloc: allocproc.
      Queueing: q is being added to the list its state asks for. Reaping: freeproc takes q off the zombies.
      Waking: wakeup or kill takes q off the sleepers, to queue it on `dest`. */
  datatype Pc =
    | Idle
    | Peeking
    | Picked(p: nat)
    | Chosen(p: nat)
    | Running(p: nat)
    | FallAsleep(p: nat)
    | Parking(p: nat)
    | AllocPeek(ret: Ret)
    | AllocPicked(np: nat, ret: Ret)
    | Alloc(np: nat, ret: Ret)
    | Queueing(q: nat, ret: Ret)
    | Reaping(q: nat, ret: Ret)
    | Waking(q: nat, dest: nat, ret: Ret)

  /** `lock[p]` is the CPU that holds p->lock, `current[c]` is c->proc, `child[p]` the process that
      fork has allocated for p and not yet made runnable. */
  datatype State = State(
    lists: L.State, st: seq<PState>, lock: seq<Option<nat>>, cpuNum: seq<nat>, child: seq<Option<nat>>,
    cpus: seq<Pc>, current: seq<Option<nat>>, booted: bool)

  datatype Event =
    | ListStep(c: nat, e: L.Event)
    | SchedPeek(c: nat)
    | SchedNone(c: nat)
    | SchedPick(c: nat)
    | SchedRun(c: nat)
    | Dispatch(c: nat)
    | Yield(c: nat)
    | Exit(c: nat)
    | Sleep(c: nat)
    | Asleep(c: nat)
    | Sched(c: nat)
    | ForkPeek(c: nat)
    | BootPeek(c: nat)
    | AllocNone(c: nat)
    | AllocPick(c: nat)
    | AllocLock(c: nat)
    | AllocDone(c: nat)
    | ForkRun(c: nat)
    | Queued(c: nat)
    | Reap(c: nat, q: nat)
    | Freed(c: nat)
    | Wakeup(c: nat, q: nat)
    | Kill(c: nat, q: nat)
    | Woken(c: nat)
    | SetCpu(c: nat, n: nat)

  function RetPc(r: Ret): Pc {
    match r case InScheduler => Idle case InProc(p) => Running(p)
  }

  /** The process whose lock a CPU holds at its program counter. */
  function Locked(pc: Pc): Option<nat> {
    match pc
    case Chosen(p) => Some(p)
    case FallAsleep(p) => Some(p)
    case Parking(p) => Some(p)
    case Alloc(np, _) => Some(np)
    case Queueing(q, _) => Some(q)
    case Reaping(q, _) => Some(q)
    case Waking(q, _, _) => Some(q)
    case _ => None
  }

  function RetProc(r: Ret): Option<nat> {
    match r case InScheduler => None case InProc(p) => Some(p)
  }

  /** The process a CPU is running at its program counter. */
  function Current(pc: Pc): Option<nat> {
    match pc
    case Chosen(p) => Some(p)
    case Running(p) => Some(p)
    case FallAsleep(p) => Some(p)
    case Parking(p) => Some(p)
    case AllocPeek(r) => RetProc(r)
    case AllocPicked(_, r) => RetProc(r)
    case Alloc(_, r) => RetProc(r)
    case Queueing(_, r) => RetProc(r)
    case Reaping(_, r) => RetProc(r)
    case Waking(_, _, r) => RetProc(r)
    case _ => None
  }

  // ---- steps

  predicate Busy(s: State, c: nat) {
    c in s.lists.calls
  }

  function Begin(s: State, c: nat, kind: L.Kind, list: nat, idx: nat): L.State {
    s.lists.(calls := s.lists.calls[c := L.Call(kind, list, idx, L.Want)])
  }

  /** The peek of CPU c has the list lock and sees `first`. */
  predicate Peeked(s: State, c: nat, list: nat, first: int) {
    && c in s.lists.calls && s.lists.calls[c] == L.Call(L.Peek, list, 0, L.Locked)
    && list < |s.lists.m.first| && s.lists.m.first[list] == first
  }

  function EndPeek(s: State, c: nat): L.State {
    s.lists.(calls := s.lists.calls - {c})
  }

  predicate Shape(s: State) {
    && |s.st| == |s.lock| == |s.cpuNum| == |s.child| == NPROC
    && |s.cpus| == |s.current| == NCPU
    && (forall p :: 0 <= p < NPROC ==> s.cpuNum[p] < NCPU)
  }

  /** CPU c runs process p in the kernel and is free to start something. */
  predicate Executes(s: State, c: nat, p: nat) {
    c < |s.cpus| && s.cpus[c] == Running(p) && p < NPROC && !Busy(s, c)
  }

  ghost predicate Enabled(s: State, e: Event)
    requires Shape(s)
  {
    && e.c < NCPU
    && var c := e.c; var pc := s.cpus[c];
       match e
       case ListStep(_, le) => le.t == c && !le.Start? && !le.Unpeek? && L.Enabled(s.lists, le)
       case SchedPeek(_) => pc == Idle && !Busy(s, c)
       case SchedNone(_) => pc == Peeking && Peeked(s, c, RunnableList(c), -1)
       case SchedPick(_) => pc == Peeking && exists p: nat :: Peeked(s, c, RunnableList(c), p)
       case SchedRun(_) => pc.Picked? && pc.p < NPROC && s.lock[pc.p] == None
       case Dispatch(_) => pc.Chosen? && pc.p < NPROC && !Busy(s, c)
       case Yield(_) => pc.Running? && Executes(s, c, pc.p) && s.lock[pc.p] == None
       case Exit(_) => pc.Running? && Executes(s, c, pc.p) && s.lock[pc.p] == None && s.child[pc.p] == None
       case Sleep(_) => pc.Running? && Executes(s, c, pc.p) && s.lock[pc.p] == None
       case Asleep(_) => pc.FallAsleep? && pc.p < NPROC && !Busy(s, c)
       case Sched(_) => pc.Parking? && pc.p < NPROC && !Busy(s, c)
       case ForkPeek(_) => pc.Running? && Executes(s, c, pc.p) && s.child[pc.p] == None
       case BootPeek(_) => pc == Idle && !Busy(s, c) && !s.booted
       case AllocNone(_) => pc.AllocPeek? && Peeked(s, c, UNUSED_LIST, -1)
       case AllocPick(_) => pc.AllocPeek? && exists p: nat :: Peeked(s, c, UNUSED_LIST, p)
       case AllocLock(_) => pc.AllocPicked? && pc.np < NPROC && s.lock[pc.np] == None
       case AllocDone(_) => pc.Alloc? && pc.np < NPROC && !Busy(s, c) && (pc.ret.InProc? ==> pc.ret.p < NPROC)
       case ForkRun(_) =>
         && pc.Running? && Executes(s, c, pc.p) && s.child[pc.p].Some?
         && s.child[pc.p].value < NPROC && s.lock[s.child[pc.p].value] == None
       case Queued(_) => pc.Queueing? && pc.q < NPROC && !Busy(s, c)
       case Reap(_, q) => pc.Running? && Executes(s, c, pc.p) && q < NPROC && s.lock[q] == None && s.st[q] == ZOMBIE
       case Freed(_) => pc.Reaping? && pc.q < NPROC && !Busy(s, c)
       case Wakeup(_, q) =>
         && ((pc == Idle && !Busy(s, c)) || (pc.Running? && Executes(s, c, pc.p)))
         && q < NPROC && s.lock[q] == None && s.st[q] == SLEEPING
       case Kill(_, q) => pc.Running? && Executes(s, c, pc.p) && q < NPROC && s.lock[q] == None && s.st[q] == SLEEPING
       case Woken(_) => pc.Waking? && pc.q < NPROC && !Busy(s, c)
       case SetCpu(_, n) => pc.Running? && Executes(s, c, pc.p) && n < NCPU
  }

  function ToRet(pc: Pc): Ret {
    if pc.Running? then InProc(pc.p) else InScheduler
  }

  ghost function Apply(s: State, e: Event): State
    requires Shape(s) && Enabled(s, e)
  {
    var c := e.c; var pc := s.cpus[c];
    match e
    case ListStep(_, le) => s.(lists := L.Apply(s.lists, le))
    case SchedPeek(_) =>
      s.(lists := Begin(s, c, L.Peek, RunnableList(c), 0), cpus := s.cpus[c := Peeking])
    case SchedNone(_) => s.(lists := EndPeek(s, c), cpus := s.cpus[c := Idle])
    case SchedPick(_) => s.(cpus := s.cpus[c := Picked(s.lists.m.first[RunnableList(c)])])
    case SchedRun(_) =>
      var p := pc.p;
      s.(lists := Begin(s, c, L.Remove, RunnableList(c), p), cpus := s.cpus[c := Chosen(p)],
         lock := s.lock[p := Some(c)], st := s.st[p := RUNNING], current := s.current[c := Some(p)])
    case Dispatch(_) => s.(cpus := s.cpus[c := Running(pc.p)], lock := s.lock[pc.p := None])
    case Yield(_) =>
      var p := pc.p;
      s.(lists := Begin(s, c, L.Add, RunnableList(s.cpuNum[p]), p), cpus := s.cpus[c := Parking(p)],
         lock := s.lock[p := Some(c)], st := s.st[p := RUNNABLE])
    case Exit(_) =>
      var p := pc.p;
      s.(lists := Begin(s, c, L.Add, ZOMBIE_LIST, p), cpus := s.cpus[c := Parking(p)],
         lock := s.lock[p := Some(c)], st := s.st[p := ZOMBIE])
    case Sleep(_) =>
      var p := pc.p;
      s.(lists := Begin(s, c, L.Add, SLEEPING_LIST, p), cpus := s.cpus[c := FallAsleep(p)],
         lock := s.lock[p := Some(c)])
    case Asleep(_) => s.(cpus := s.cpus[c := Parking(pc.p)], st := s.st[pc.p := SLEEPING])
    case Sched(_) =>
      s.(cpus := s.cpus[c := Idle], lock := s.lock[pc.p := None], current := s.current[c := None])
    case ForkPeek(_) =>
      s.(lists := Begin(s, c, L.Peek, UNUSED_LIST, 0), cpus := s.cpus[c := AllocPeek(InProc(pc.p))])
    case BootPeek(_) =>
      s.(lists := Begin(s, c, L.Peek, UNUSED_LIST, 0), cpus := s.cpus[c := AllocPeek(InScheduler)], booted := true)
    case AllocNone(_) => s.(lists := EndPeek(s, c), cpus := s.cpus[c := RetPc(pc.ret)])
    case AllocPick(_) => s.(cpus := s.cpus[c := AllocPicked(s.lists.m.first[UNUSED_LIST], pc.ret)])
    case AllocLock(_) =>
      s.(lists := Begin(s, c, L.Remove, UNUSED_LIST, pc.np), cpus := s.cpus[c := Alloc(pc.np, pc.ret)],
         lock := s.lock[pc.np := Some(c)])
    case AllocDone(_) =>
      if pc.ret.InProc? then
        s.(cpus := s.cpus[c := Running(pc.ret.p)], lock := s.lock[pc.np := None], st := s.st[pc.np := USED],
           child := s.child[pc.ret.p := Some(pc.np)])
      else
        // userinit keeps the lock and queues the first process on CPU 0
        s.(lists := Begin(s, c, L.Add, RunnableList(0), pc.np), cpus := s.cpus[c := Queueing(pc.np, pc.ret)],
           st := s.st[pc.np := RUNNABLE])
    case ForkRun(_) =>
      var p := pc.p; var np := s.child[p].value;
      s.(lists := Begin(s, c, L.Add, RunnableList(s.cpuNum[p]), np), cpus := s.cpus[c := Queueing(np, InProc(p))],
         lock := s.lock[np := Some(c)], st := s.st[np := RUNNABLE], child := s.child[p := None])
    case Queued(_) => s.(cpus := s.cpus[c := RetPc(pc.ret)], lock := s.lock[pc.q := None])
    case Reap(_, q) =>
      s.(lists := Begin(s, c, L.Remove, ZOMBIE_LIST, q), cpus := s.cpus[c := Reaping(q, ToRet(pc))],
         lock := s.lock[q := Some(c)])
    case Freed(_) =>
      s.(lists := Begin(s, c, L.Add, UNUSED_LIST, pc.q), cpus := s.cpus[c := Queueing(pc.q, pc.ret)],
         st := s.st[pc.q := UNUSED])
    case Wakeup(_, q) =>
      s.(lists := Begin(s, c, L.Remove, SLEEPING_LIST, q), cpus := s.cpus[c := Waking(q, RunnableList(0), ToRet(pc))],
         lock := s.lock[q := Some(c)], st := s.st[q := RUNNABLE])
    case Kill(_, q) =>
      s.(lists := Begin(s, c, L.Remove, SLEEPING_LIST, q),
         cpus := s.cpus[c := Waking(q, RunnableList(s.cpuNum[q]), ToRet(pc))], lock := s.lock[q := Some(c)])
    case Woken(_) =>
      s.(lists := Begin(s, c, L.Add, pc.dest, pc.q), cpus := s.cpus[c := Queueing(pc.q, pc.ret)],
         st := s.st[pc.q := RUNNABLE])
    case SetCpu(_, n) => s.(cpuNum := s.cpuNum[pc.p := n])
  }

  // ---- the invariant

  ghost predicate Nowhere(abs: seq<seq<nat>>, p: nat) {
    forall l :: 0 <= l < |abs| ==> p !in abs[l]
  }

  /** The list that fits a state. */
  predicate Fits(st: PState, l: nat) {
    match st
    case UNUSED => l == UNUSED_LIST
    case ZOMBIE => l == ZOMBIE_LIST
    case SLEEPING => l == SLEEPING_LIST
    case RUNNABLE => 3 <= l < L.NLISTS
    case _ => false
  }

  /** p is on exactly one list, the one its state asks for, or on none when USED or RUNNING. */
  ghost predicate Agrees(abs: seq<seq<nat>>, st: PState, p: nat) {
    if st == USED || st == RUNNING then Nowhere(abs, p) else
    exists l :: 0 <= l < |abs| && p in abs[l] && Fits(st, l)
  }

  function CallOf(ls: L.State, c: nat): Option<L.Call> {
    if c in ls.calls then Some(ls.calls[c]) else None
  }

  predicate CallIs(call: Option<L.Call>, kind: L.Kind, list: nat, idx: nat) {
    call.Some? && call.value.kind == kind && call.value.list == list && call.value.idx == idx
  }

  /** A peek of this list holds the list lock and has seen p first. */
  predicate SawFirst(m: L.Lists, call: Option<L.Call>, list: nat, p: nat) {
    && call == Some(L.Call(L.Peek, list, 0, L.Locked))
    && list < |m.first| && m.first[list] == p
  }

  /** A removal of p from `list` is under way, or done. */
  ghost predicate Removing(m: L.Lists, call: Option<L.Call>, list: nat, p: nat) {
    if call.Some? then CallIs(call, L.Remove, list, p) else Nowhere(m.abs, p)
  }

  /** p is going onto the list its state asks for, or is there. */
  ghost predicate Adding(m: L.Lists, call: Option<L.Call>, st: PState, p: nat) {
    && st != RUNNING && st != USED
    && if call.Some? then CallIs(call, L.Add, call.value.list, p) && Fits(st, call.value.list)
       else Agrees(m.abs, st, p)
  }

  /** What a program counter says about the list call of its CPU and the state `st` of the process it has locked. */
  ghost predicate PcOk(m: L.Lists, call: Option<L.Call>, c: nat, pc: Pc, st: PState) {
    match pc
    case Idle => call == None
    case Peeking => CallIs(call, L.Peek, RunnableList(c), 0)
    case Picked(p) => p < NPROC && SawFirst(m, call, RunnableList(c), p)
    case Chosen(p) => Removing(m, call, RunnableList(c), p) && st == RUNNING
    case Running(p) => call == None
    case FallAsleep(p) => Adding(m, call, SLEEPING, p) && st == RUNNING
    case Parking(p) => Adding(m, call, st, p)
    case AllocPeek(_) => CallIs(call, L.Peek, UNUSED_LIST, 0)
    case AllocPicked(np, _) => np < NPROC && SawFirst(m, call, UNUSED_LIST, np)
    case Alloc(np, r) => Removing(m, call, UNUSED_LIST, np) && st == UNUSED && RetProc(r) != Some(np)
    case Queueing(q, r) => Adding(m, call, st, q) && RetProc(r) != Some(q)
    case Reaping(q, r) => Removing(m, call, ZOMBIE_LIST, q) && st == ZOMBIE && RetProc(r) != Some(q)
    case Waking(q, dest, r) =>
      && Removing(m, call, SLEEPING_LIST, q) && 3 <= dest < L.NLISTS && (st == SLEEPING || st == RUNNABLE)
      && RetProc(r) != Some(q)
  }

  /** The state of p, or UNUSED when there is no p. */
  function StateOf(st: seq<PState>, p: Option<nat>): PState {
    if p.Some? && p.value < |st| then st[p.value] else UNUSED
  }

  ghost predicate CpuOk(s: State, c: nat)
    requires Shape(s) && c < NCPU
  {
    var pc := s.cpus[c];
    && PcOk(s.lists.m, CallOf(s.lists, c), c, pc, StateOf(s.st, Locked(pc)))
    && s.current[c] == Current(pc)
    && (Locked(pc).Some? ==> Locked(pc).value < NPROC && s.lock[Locked(pc).value] == Some(c))
    && (Current(pc).Some? ==> Current(pc).value < NPROC)
    && (Current(pc).Some? && Locked(pc) != Current(pc) ==> s.st[Current(pc).value] == RUNNING)
  }

  ghost predicate ProcOk(s: State, p: nat)
    requires Shape(s) && p < NPROC
  {
    && (s.lock[p] == None ==> Agrees(s.lists.m.abs, s.st[p], p))
    && (s.lock[p].Some? ==> s.lock[p].value < NCPU && Locked(s.cpus[s.lock[p].value]) == Some(p))
    && (s.child[p].Some? ==>
          s.child[p].value < NPROC && s.st[s.child[p].value] == USED && s.lock[s.child[p].value] == None)
  }

  ghost predicate Distinct(s: State)
    requires Shape(s)
  {
    && (forall c, d :: 0 <= c < d < NCPU && Current(s.cpus[c]).Some? ==> Current(s.cpus[c]) != Current(s.cpus[d]))
    && (forall p, q :: 0 <= p < q < NPROC && s.child[p].Some? ==> s.child[p] != s.child[q])
    && (forall c :: c in s.lists.calls ==> c < NCPU)
  }

  ghost predicate Inv(s: State) {
    && Shape(s) && L.Inv(s.lists)
    && (forall c :: 0 <= c < NCPU ==> CpuOk(s, c))
    && (forall p :: 0 <= p < NPROC ==> ProcOk(s, p))
    && Distinct(s)
  }

  // ---- list steps

  /** p is on the same lists before and after. */
  ghost predicate SamePlace(m: L.Lists, m': L.Lists, p: nat) {
    |m.abs| == |m'.abs| && forall l :: 0 <= l < |m.abs| ==> (p in m.abs[l] <==> p in m'.abs[l])
  }

  lemma AgreesSame(m: L.Lists, m': L.Lists, st: PState, p: nat)
    requires SamePlace(m, m', p) && Agrees(m.abs, st, p)
    ensures Agrees(m'.abs, st, p)
  {
  }

  lemma PcSame(m: L.Lists, m': L.Lists, call: Option<L.Call>, c: nat, pc: Pc, st: PState)
    requires PcOk(m, call, c, pc, st)
    requires Locked(pc).Some? ==> SamePlace(m, m', Locked(pc).value)
    requires call.Some? && call.value.pc == L.Locked ==>
               |m'.first| == |m.first|
                   && (call.value.list < |m.first| ==> m'.first[call.value.list] == m.first[call.value.list])
    ensures PcOk(m', call, c, pc, st)
  {
    if Locked(pc).Some? {
      var p := Locked(pc).value;
      forall st' | Agrees(m.abs, st', p) ensures Agrees(m'.abs, st', p) {
        AgreesSame(m, m', st', p);
      }
    }
  }

  /** A list call that moves an index belongs to the CPU that has locked that process. */
  lemma CallOwner(s: State, c: nat)
    requires Inv(s) && c in s.lists.calls && s.lists.calls[c].kind != L.Peek
    ensures c < NCPU && Locked(s.cpus[c]) == Some(s.lists.calls[c].idx)
    ensures s.lists.calls[c].idx < NPROC && s.lock[s.lists.calls[c].idx] == Some(c)
  {
    assert CpuOk(s, c);
  }

  lemma ListStepOther(s: State, e: L.Event, y: nat)
    requires Inv(s) && L.Enabled(s.lists, e) && e.t in s.lists.calls && y < NPROC && s.lock[y] != Some(e.t)
    ensures SamePlace(s.lists.m, L.Apply(s.lists, e).m, y)
  {
    if s.lists.calls[e.t].kind != L.Peek {
      CallOwner(s, e.t);
    }
    L.OthersStay(s.lists, e, y);
  }

  lemma ListStepSelf(s: State, e: L.Event)
    requires Inv(s) && L.Enabled(s.lists, e) && e.t in s.lists.calls && e.t < NCPU && !e.Start? && !e.Unpeek?
    ensures var ls' := L.Apply(s.lists, e);
      PcOk(ls'.m, CallOf(ls', e.t), e.t, s.cpus[e.t], StateOf(s.st, Locked(s.cpus[e.t])))
  {
    var c := e.t;
    assert CpuOk(s, c);
    L.StepEffect(s.lists, e);
    var ls' := L.Apply(s.lists, e);
    if c !in ls'.calls {
      L.ReturnedPlace(s.lists, e);
    }
  }

  lemma ListStepCpu(s: State, s': State, c: nat, e: L.Event, d: nat)
    requires Inv(s) && Enabled(s, ListStep(c, e)) && s' == Apply(s, ListStep(c, e)) && d < NCPU && d != c
    ensures CpuOk(s', d)
  {
    L.StepEffect(s.lists, e);
    assert CpuOk(s, d);
    var pc := s.cpus[d];
    if Locked(pc).Some? {
      ListStepOther(s, e, Locked(pc).value);
    }
    if d in s.lists.calls && s.lists.calls[d].pc == L.Locked && s.lists.calls[d].list < L.NLISTS {
      L.FirstStable(s.lists, e, d, s.lists.calls[d].list);
    }
    PcSame(s.lists.m, s'.lists.m, CallOf(s.lists, d), d, pc, StateOf(s.st, Locked(pc)));
  }

  lemma ListStepProc(s: State, s': State, c: nat, e: L.Event, p: nat)
    requires Inv(s) && Enabled(s, ListStep(c, e)) && s' == Apply(s, ListStep(c, e)) && p < NPROC
    ensures ProcOk(s', p)
  {
    assert ProcOk(s, p);
    if s.lock[p] == None {
      ListStepOther(s, e, p);
      AgreesSame(s.lists.m, s'.lists.m, s.st[p], p);
    }
  }

  lemma ListStepKeeps(s: State, c: nat, e: L.Event)
    requires Inv(s) && Enabled(s, ListStep(c, e))
    ensures Inv(Apply(s, ListStep(c, e)))
  {
    var s' := Apply(s, ListStep(c, e));
    L.StepKeeps(s.lists, e);
    L.StepEffect(s.lists, e);
    forall d | 0 <= d < NCPU ensures CpuOk(s', d) {
      if d == c {
        assert CpuOk(s, d);
        ListStepSelf(s, e);
      } else {
        ListStepCpu(s, s', c, e, d);
      }
    }
    forall p | 0 <= p < NPROC ensures ProcOk(s', p) { ListStepProc(s, s', c, e, p); }
  }

  // ---- starting and ending list calls

  /** CPU c may start a call: it has none, or only a peek to give up. */
  ghost predicate CanBegin(s: State, c: nat) {
    c in s.lists.calls ==> s.lists.calls[c].kind == L.Peek && s.lists.calls[c].pc == L.Locked
  }

  lemma BeginKeeps(s: State, c: nat, kind: L.Kind, list: nat, p: nat)
    requires Inv(s) && c < NCPU && CanBegin(s, c) && kind != L.Peek && list < L.NLISTS && p < NPROC
    requires s.lock[p] == None || s.lock[p] == Some(c)
    requires kind == L.Add ==> Nowhere(s.lists.m.abs, p)
    requires kind == L.Remove ==> p in s.lists.m.abs[list]
    ensures L.Inv(Begin(s, c, kind, list, p))
  {
    var ls := s.lists.(calls := s.lists.calls - {c});
    if c in s.lists.calls {
      L.UnpeekKeeps(s.lists, c);
    } else {
      assert ls == s.lists;
    }
    forall u | u in ls.calls && ls.calls[u].kind != L.Peek ensures ls.calls[u].idx != p {
      CallOwner(s, u);
    }
    L.StartKeeps(ls, L.Start(c, kind, list, p));
    assert ls.calls[c := L.Call(kind, list, p, L.Want)] == s.lists.calls[c := L.Call(kind, list, p, L.Want)];
  }

  lemma BeginPeekKeeps(s: State, c: nat, list: nat)
    requires Inv(s) && c < NCPU && c !in s.lists.calls && list < L.NLISTS
    ensures L.Inv(Begin(s, c, L.Peek, list, 0))
  {
    L.StartKeeps(s.lists, L.Start(c, L.Peek, list, 0));
  }

  // ---- where a process is

  lemma Placed(s: State, p: nat, l: nat)
    requires Inv(s) && p < NPROC && s.lock[p] == None && l < L.NLISTS
    ensures p in s.lists.m.abs[l] ==> Fits(s.st[p], l)
    ensures (s.st[p] == RUNNING || s.st[p] == USED) ==> Nowhere(s.lists.m.abs, p)
    ensures s.st[p] != RUNNABLE && Fits(s.st[p], l) ==> p in s.lists.m.abs[l]
  {
    assert ProcOk(s, p);
  }

  lemma SeenFirst(s: State, c: nat, list: nat, p: nat)
    requires Inv(s) && c < NCPU && SawFirst(s.lists.m, CallOf(s.lists, c), list, p) && list < L.NLISTS
    ensures p < NPROC && p in s.lists.m.abs[list]
  {
    L.FirstIsHead(s.lists, c);
    assert L.Chain(s.lists.m.next, s.lists.m.abs[list]);
  }

  // ---- steps of one CPU on one process

  /** Only CPU c and process p changed, and nobody else has p locked. */
  ghost predicate OnlyTouches(s: State, s': State, c: nat, p: nat)
    requires Shape(s) && Shape(s') && c < NCPU && p < NPROC
  {
    && s'.lists.m == s.lists.m
    && (forall d :: d != c ==> CallOf(s'.lists, d) == CallOf(s.lists, d))
    && (forall d :: 0 <= d < NCPU && d != c ==> s'.cpus[d] == s.cpus[d] && s'.current[d] == s.current[d])
    && (forall q :: 0 <= q < NPROC && q != p ==> s'.st[q] == s.st[q] && s'.lock[q] == s.lock[q])
    && (s.lock[p] == None || s.lock[p] == Some(c))
    && (s'.lock[p] == None || s'.lock[p] == Some(c))
    && (Locked(s.cpus[c]) == None || Locked(s.cpus[c]) == Some(p))
    && (s'.st[p] != s.st[p] ==> forall d :: 0 <= d < NCPU && d != c ==> Current(s.cpus[d]) != Some(p))
  }

  lemma OtherCpu(s: State, s': State, c: nat, p: nat, d: nat)
    requires Inv(s) && Shape(s') && c < NCPU && p < NPROC && d < NCPU && d != c && OnlyTouches(s, s', c, p)
    ensures CpuOk(s', d)
  {
    assert CpuOk(s, d);
  }

  lemma OtherProc(s: State, s': State, c: nat, p: nat, q: nat)
    requires Inv(s) && Shape(s') && c < NCPU && p < NPROC && q < NPROC && q != p && OnlyTouches(s, s', c, p)
    requires s'.child[q].Some? ==>
               s'.child[q].value < NPROC && s'.st[s'.child[q].value] == USED && s'.lock[s'.child[q].value] == None
    ensures ProcOk(s', q)
  {
    assert ProcOk(s, q);
  }

  lemma StepOn(s: State, s': State, c: nat, p: nat)
    requires Inv(s) && Shape(s') && c < NCPU && p < NPROC && OnlyTouches(s, s', c, p)
    requires L.Inv(s'.lists) && CpuOk(s', c) && ProcOk(s', p) && Distinct(s')
    requires forall q :: 0 <= q < NPROC && s'.child[q].Some? ==>
               s'.child[q].value < NPROC && s'.st[s'.child[q].value] == USED && s'.lock[s'.child[q].value] == None
    ensures Inv(s')
  {
    forall d | 0 <= d < NCPU ensures CpuOk(s', d) {
      if d != c { OtherCpu(s, s', c, p, d); }
    }
    forall q | 0 <= q < NPROC ensures ProcOk(s', q) {
      if q != p { OtherProc(s, s', c, p, q); }
    }
  }

  /** A process that is not RUNNING, or is locked by c, runs nowhere else. */
  lemma RunsNowhereElse(s: State, c: nat, p: nat)
    requires Inv(s) && c < NCPU && p < NPROC
    requires (s.lock[p] == None && s.st[p] != RUNNING)
             || (s.lock[p] == Some(c) && (s.st[p] != RUNNING || Current(s.cpus[c]) == Some(p)))
    ensures forall d :: 0 <= d < NCPU && d != c ==> Current(s.cpus[d]) != Some(p)
  {
    forall d | 0 <= d < NCPU && d != c ensures Current(s.cpus[d]) != Some(p) {
      assert CpuOk(s, d);
    }
  }

  /** The same, when fork's pending children are not concerned. */
  lemma PlainStep(s: State, s': State, c: nat, p: nat)
    requires Inv(s) && Shape(s') && c < NCPU && p < NPROC && OnlyTouches(s, s', c, p)
    requires L.Inv(s'.lists) && CpuOk(s', c)
    requires s'.lock[p] == None ==> Agrees(s'.lists.m.abs, s'.st[p], p)
    requires s'.lock[p] == Some(c) ==> Locked(s'.cpus[c]) == Some(p)
    requires s'.child == s.child && (s.st[p] == USED ==> s'.st[p] == USED && s'.lock[p] == s.lock[p])
    requires Current(s'.cpus[c]) == Current(s.cpus[c]) || Current(s'.cpus[c]) == None ||
             forall d :: 0 <= d < NCPU && d != c ==> Current(s.cpus[d]) != Current(s'.cpus[c])
    ensures Inv(s')
  {
    forall q | 0 <= q < NPROC && s'.child[q].Some?
      ensures s'.child[q].value < NPROC && s'.st[s'.child[q].value] == USED && s'.lock[s'.child[q].value] == None
    {
      assert ProcOk(s, q);
    }
    assert forall d :: d in s'.lists.calls ==> CallOf(s'.lists, d).Some?;
    StepOn(s, s', c, p);
  }

  lemma SchedRunKeeps(s: State, c: nat)
    requires Inv(s) && Enabled(s, SchedRun(c))
    ensures Inv(Apply(s, SchedRun(c)))
  {
    var s' := Apply(s, SchedRun(c));
    var p := s.cpus[c].p;
    assert CpuOk(s, c);
    SeenFirst(s, c, RunnableList(c), p);
    Placed(s, p, RunnableList(c));
    RunsNowhereElse(s, c, p);
    BeginKeeps(s, c, L.Remove, RunnableList(c), p);
    PlainStep(s, s', c, p);
  }

  lemma RunsOnlyHere(s: State, c: nat, p: nat)
    requires Inv(s) && c < NCPU && Current(s.cpus[c]) == Some(p)
    ensures p < NPROC && forall d :: 0 <= d < NCPU && d != c ==> Current(s.cpus[d]) != Some(p)
    ensures Locked(s.cpus[c]) != Some(p) ==> s.st[p] == RUNNING
  {
    assert CpuOk(s, c);
  }

  /** Yield, Exit and Sleep: the running process is on no list, and may go onto one. */
  lemma LeaveBegins(s: State, c: nat, p: nat, list: nat)
    requires Inv(s) && c < NCPU && p < NPROC && Executes(s, c, p) && s.lock[p] == None && list < L.NLISTS
    ensures L.Inv(Begin(s, c, L.Add, list, p)) && s.st[p] == RUNNING
    ensures CpuOk(s, c) && forall d :: 0 <= d < NCPU && d != c ==> Current(s.cpus[d]) != Some(p)
  {
    RunsOnlyHere(s, c, p);
    Placed(s, p, 0);
    BeginKeeps(s, c, L.Add, list, p);
  }

  lemma YieldKeeps(s: State, c: nat)
    requires Inv(s) && Enabled(s, Yield(c))
    ensures Inv(Apply(s, Yield(c)))
  {
    LeaveBegins(s, c, s.cpus[c].p, RunnableList(s.cpuNum[s.cpus[c].p]));
    PlainStep(s, Apply(s, Yield(c)), c, s.cpus[c].p);
  }

  lemma ExitKeeps(s: State, c: nat)
    requires Inv(s) && Enabled(s, Exit(c))
    ensures Inv(Apply(s, Exit(c)))
  {
    LeaveBegins(s, c, s.cpus[c].p, ZOMBIE_LIST);
    PlainStep(s, Apply(s, Exit(c)), c, s.cpus[c].p);
  }

  lemma SleepKeeps(s: State, c: nat)
    requires Inv(s) && Enabled(s, Sleep(c))
    ensures Inv(Apply(s, Sleep(c)))
  {
    LeaveBegins(s, c, s.cpus[c].p, SLEEPING_LIST);
    PlainStep(s, Apply(s, Sleep(c)), c, s.cpus[c].p);
  }

  lemma DispatchKeeps(s: State, c: nat)
    requires Inv(s) && Enabled(s, Dispatch(c))
    ensures Inv(Apply(s, Dispatch(c)))
  {
    assert CpuOk(s, c);
    var p := Locked(s.cpus[c]).value;
    RunsOnlyHere(s, c, p);
    PlainStep(s, Apply(s, Dispatch(c)), c, p);
  }

  lemma AsleepKeeps(s: State, c: nat)
    requires Inv(s) && Enabled(s, Asleep(c))
    ensures Inv(Apply(s, Asleep(c)))
  {
    assert CpuOk(s, c);
    var p := Locked(s.cpus[c]).value;
    RunsOnlyHere(s, c, p);
    PlainStep(s, Apply(s, Asleep(c)), c, p);
  }

  lemma SchedKeeps(s: State, c: nat)
    requires Inv(s) && Enabled(s, Sched(c))
    ensures Inv(Apply(s, Sched(c)))
  {
    assert CpuOk(s, c);
    var p := Locked(s.cpus[c]).value;
    RunsOnlyHere(s, c, p);
    PlainStep(s, Apply(s, Sched(c)), c, p);
  }

  lemma QueuedKeeps(s: State, c: nat)
    requires Inv(s) && Enabled(s, Queued(c))
    ensures Inv(Apply(s, Queued(c)))
  {
    assert CpuOk(s, c);
    var p := Locked(s.cpus[c]).value;
    PlainStep(s, Apply(s, Queued(c)), c, p);
  }

  /** Reap, Wakeup and Kill: q is on the list its state asks for, and may be taken off. */
  lemma TakeBegins(s: State, c: nat, q: nat, list: nat)
    requires Inv(s) && c < NCPU && q < NPROC && s.lock[q] == None && list < L.NLISTS && Fits(s.st[q], list)
    requires s.st[q] != RUNNABLE && c !in s.lists.calls
    ensures L.Inv(Begin(s, c, L.Remove, list, q))
    ensures CpuOk(s, c) && forall d :: 0 <= d < NCPU ==> Current(s.cpus[d]) != Some(q)
  {
    Placed(s, q, list);
    BeginKeeps(s, c, L.Remove, list, q);
    forall d | 0 <= d < NCPU ensures Current(s.cpus[d]) != Some(q) {
      assert CpuOk(s, d);
    }
  }

  /** A step that starts a list call for p and changes nothing but CPU c and process p. */
  lemma StartTouches(s: State, s': State, c: nat, p: nat, call: L.Call)
    requires Shape(s) && Shape(s') && c < NCPU && p < NPROC && s'.lists == s.lists.(calls := s.lists.calls[c := call])
    requires s'.cpus == s.cpus[c := s'.cpus[c]] && s'.current == s.current
    requires s'.st == s.st[p := s'.st[p]] && s'.lock == s.lock[p := s'.lock[p]]
    requires (s.lock[p] == None || s.lock[p] == Some(c)) && (s'.lock[p] == None || s'.lock[p] == Some(c))
    requires Locked(s.cpus[c]) == None || Locked(s.cpus[c]) == Some(p)
    requires forall d :: 0 <= d < NCPU && d != c ==> Current(s.cpus[d]) != Some(p)
    ensures OnlyTouches(s, s', c, p)
  {
  }

  /** A CPU locks q and starts to take it off the list its state names. */
  lemma TakeStep(s: State, s': State, c: nat, q: nat, list: nat, pc: Pc, st: PState)
    requires Inv(s) && c < NCPU && q < NPROC && s.lock[q] == None && list < L.NLISTS && Fits(s.st[q], list)
    requires s.st[q] != RUNNABLE && c !in s.lists.calls && Locked(s.cpus[c]) == None
             && Current(pc) == Current(s.cpus[c])
    requires Locked(pc) == Some(q) && Current(pc) != Some(q)
             && PcOk(s.lists.m, Some(L.Call(L.Remove, list, q, L.Want)), c, pc, st)
    requires s'.lists == Begin(s, c, L.Remove, list, q) && s'.st == s.st[q := st]
    requires s' == s.(lists := s'.lists, cpus := s.cpus[c := pc], lock := s.lock[q := Some(c)], st := s'.st)
    ensures Inv(s')
  {
    TakeBegins(s, c, q, list);
    assert CpuOk(s', c);
    StartTouches(s, s', c, q, L.Call(L.Remove, list, q, L.Want));
    PlainStep(s, s', c, q);
  }

  lemma ReapKeeps(s: State, c: nat, q: nat)
    requires Inv(s) && Enabled(s, Reap(c, q))
    ensures Inv(Apply(s, Reap(c, q)))
  {
    assert CpuOk(s, c) && s.st[q := ZOMBIE] == s.st;
    TakeBegins(s, c, q, ZOMBIE_LIST);
    TakeStep(s, Apply(s, Reap(c, q)), c, q, ZOMBIE_LIST, Reaping(q, ToRet(s.cpus[c])), ZOMBIE);
  }

  lemma WakeupKeeps(s: State, c: nat, q: nat)
    requires Inv(s) && Enabled(s, Wakeup(c, q))
    ensures Inv(Apply(s, Wakeup(c, q)))
  {
    assert CpuOk(s, c);
    TakeBegins(s, c, q, SLEEPING_LIST);
    TakeStep(s, Apply(s, Wakeup(c, q)), c, q, SLEEPING_LIST, Waking(q, RunnableList(0), ToRet(s.cpus[c])), RUNNABLE);
  }

  lemma KillKeeps(s: State, c: nat, q: nat)
    requires Inv(s) && Enabled(s, Kill(c, q))
    ensures Inv(Apply(s, Kill(c, q)))
  {
    assert CpuOk(s, c) && s.st[q := SLEEPING] == s.st;
    TakeBegins(s, c, q, SLEEPING_LIST);
    TakeStep(s, Apply(s, Kill(c, q)), c, q, SLEEPING_LIST, Waking(q, RunnableList(s.cpuNum[q]), ToRet(s.cpus[c])),
             SLEEPING);
  }

  /** A CPU that has q locked, on no list, starts to put it on the list its new state asks for. */
  lemma AddStep(s: State, s': State, c: nat, q: nat, list: nat, ret: Ret, st: PState)
    requires Inv(s) && c < NCPU && q < NPROC && s.lock[q] == Some(c) && Locked(s.cpus[c]) == Some(q)
             && c !in s.lists.calls
    requires list < L.NLISTS && Fits(st, list) && Nowhere(s.lists.m.abs, q) && s.st[q] != RUNNING && s.st[q] != USED
    requires Current(Queueing(q, ret)) == Current(s.cpus[c]) && RetProc(ret) != Some(q)
    requires s' == s.(lists := Begin(s, c, L.Add, list, q), cpus := s.cpus[c := Queueing(q, ret)], st := s.st[q := st])
    ensures Inv(s')
  {
    assert CpuOk(s, c);
    RunsNowhereElse(s, c, q);
    BeginKeeps(s, c, L.Add, list, q);
    assert CpuOk(s', c);
    StartTouches(s, s', c, q, L.Call(L.Add, list, q, L.Want));
    PlainStep(s, s', c, q);
  }

  lemma FreedKeeps(s: State, c: nat)
    requires Inv(s) && Enabled(s, Freed(c))
    ensures Inv(Apply(s, Freed(c)))
  {
    assert CpuOk(s, c);
    AddStep(s, Apply(s, Freed(c)), c, s.cpus[c].q, UNUSED_LIST, s.cpus[c].ret, UNUSED);
  }

  lemma WokenKeeps(s: State, c: nat)
    requires Inv(s) && Enabled(s, Woken(c))
    ensures Inv(Apply(s, Woken(c)))
  {
    assert CpuOk(s, c);
    AddStep(s, Apply(s, Woken(c)), c, s.cpus[c].q, s.cpus[c].dest, s.cpus[c].ret, RUNNABLE);
  }

  lemma BootAllocDoneKeeps(s: State, c: nat)
    requires Inv(s) && Enabled(s, AllocDone(c)) && s.cpus[c].ret.InScheduler?
    ensures Inv(Apply(s, AllocDone(c)))
  {
    assert CpuOk(s, c);
    AddStep(s, Apply(s, AllocDone(c)), c, s.cpus[c].np, RunnableList(0), s.cpus[c].ret, RUNNABLE);
  }

  /** CPU c locks the unused process it saw and starts to take it off the unused list. */
  lemma AllocTaken(s: State, s': State, c: nat, np: nat, ret: Ret)
    requires Inv(s) && c < NCPU && np < NPROC && s.cpus[c] == AllocPicked(np, ret) && s.lock[np] == None
    requires s' == s.(lists := Begin(s, c, L.Remove, UNUSED_LIST, np), cpus := s.cpus[c := Alloc(np, ret)],
                      lock := s.lock[np := Some(c)])
    ensures Inv(s')
  {
    assert CpuOk(s, c);
    SeenFirst(s, c, UNUSED_LIST, np);
    Placed(s, np, UNUSED_LIST);
    BeginKeeps(s, c, L.Remove, UNUSED_LIST, np);
    RunsNowhereElse(s, c, np);
    assert CpuOk(s', c) && s.st[np := s.st[np]] == s.st;
    StartTouches(s, s', c, np, L.Call(L.Remove, UNUSED_LIST, np, L.Want));
    PlainStep(s, s', c, np);
  }

  lemma AllocLockKeeps(s: State, c: nat)
    requires Inv(s) && Enabled(s, AllocLock(c))
    ensures Inv(Apply(s, AllocLock(c)))
  {
    AllocTaken(s, Apply(s, AllocLock(c)), c, s.cpus[c].np, s.cpus[c].ret);
  }

  // ---- steps that lock no process

  lemma CpuStep(s: State, s': State, c: nat)
    requires Inv(s) && Shape(s') && c < NCPU && s'.lists.m == s.lists.m && L.Inv(s'.lists)
    requires s'.st == s.st && s'.lock == s.lock && s'.child == s.child && s'.current == s.current
    requires forall d :: d != c ==> CallOf(s'.lists, d) == CallOf(s.lists, d)
    requires s'.cpus == s.cpus[c := s'.cpus[c]] && CpuOk(s', c)
    requires Locked(s.cpus[c]) == None == Locked(s'.cpus[c]) && Current(s'.cpus[c]) == Current(s.cpus[c])
    ensures Inv(s')
  {
    forall d | 0 <= d < NCPU ensures CpuOk(s', d) {
      assert CpuOk(s, d);
    }
    forall q | 0 <= q < NPROC ensures ProcOk(s', q) {
      assert ProcOk(s, q);
    }
    assert forall d :: d in s'.lists.calls ==> CallOf(s'.lists, d).Some?;
  }

  lemma PeekKeeps(s: State, e: Event)
    requires Inv(s) && Enabled(s, e) && (e.SchedPeek? || e.ForkPeek? || e.BootPeek?)
    ensures Inv(Apply(s, e))
  {
    assert CpuOk(s, e.c);
    BeginPeekKeeps(s, e.c, if e.SchedPeek? then RunnableList(e.c) else UNUSED_LIST);
    CpuStep(s, Apply(s, e), e.c);
  }

  lemma NoneKeeps(s: State, e: Event)
    requires Inv(s) && Enabled(s, e) && (e.SchedNone? || e.AllocNone?)
    ensures Inv(Apply(s, e))
  {
    assert CpuOk(s, e.c);
    L.UnpeekKeeps(s.lists, e.c);
    CpuStep(s, Apply(s, e), e.c);
  }

  lemma PickKeeps(s: State, e: Event)
    requires Inv(s) && Enabled(s, e) && (e.SchedPick? || e.AllocPick?)
    ensures Inv(Apply(s, e))
  {
    assert CpuOk(s, e.c);
    var list := if e.SchedPick? then RunnableList(e.c) else UNUSED_LIST;
    SeenFirst(s, e.c, list, s.lists.m.first[list]);
    CpuStep(s, Apply(s, e), e.c);
  }

  lemma SetCpuKeeps(s: State, c: nat, n: nat)
    requires Inv(s) && Enabled(s, SetCpu(c, n))
    ensures Inv(Apply(s, SetCpu(c, n)))
  {
    var s' := Apply(s, SetCpu(c, n));
    forall d | 0 <= d < NCPU ensures CpuOk(s', d) { assert CpuOk(s, d); }
    forall q | 0 <= q < NPROC ensures ProcOk(s', q) { assert ProcOk(s, q); }
  }

  // ---- fork's child

  /** Process np becomes, or stops being, the pending child of p. */
  lemma ChildStep(s: State, s': State, c: nat, np: nat, p: nat)
    requires Inv(s) && Shape(s') && c < NCPU && np < NPROC && p < NPROC && OnlyTouches(s, s', c, np)
    requires L.Inv(s'.lists) && CpuOk(s', c) && Current(s'.cpus[c]) == Current(s.cpus[c])
    requires s'.lock[np] == None ==> Agrees(s'.lists.m.abs, s'.st[np], np)
    requires s'.lock[np] == Some(c) ==> Locked(s'.cpus[c]) == Some(np)
    requires s'.child == s.child[p := s'.child[p]]
    requires (s.st[np] == UNUSED && s'.child[p] == Some(np) && s'.st[np] == USED && s'.lock[np] == None)
          || (s.child[p] == Some(np) && s'.child[p] == None)
    ensures Inv(s')
  {
    forall q | 0 <= q < NPROC && s'.child[q].Some?
      ensures s'.child[q].value < NPROC && s'.st[s'.child[q].value] == USED && s'.lock[s'.child[q].value] == None
      ensures q != p ==> s'.child[q] != Some(np)
    {
      assert ProcOk(s, q);
    }
    assert forall d :: d in s'.lists.calls ==> CallOf(s'.lists, d).Some?;
    assert ProcOk(s, np);
    StepOn(s, s', c, np);
  }

  lemma AllocDoneKeeps(s: State, c: nat)
    requires Inv(s) && Enabled(s, AllocDone(c)) && s.cpus[c].ret.InProc?
    ensures Inv(Apply(s, AllocDone(c)))
  {
    var s' := Apply(s, AllocDone(c));
    var np, p := s.cpus[c].np, s.cpus[c].ret.p;
    assert CpuOk(s, c);
    RunsNowhereElse(s, c, np);
    ChildStep(s, s', c, np, p);
  }

  /** CPU c, running p, starts to queue the child of p. */
  lemma ChildQueued(s: State, s': State, c: nat, p: nat, np: nat, list: nat)
    requires Inv(s) && c < NCPU && p < NPROC && np < NPROC && s.cpus[c] == Running(p) && c !in s.lists.calls
    requires s.child[p] == Some(np) && s.lock[np] == None && list < L.NLISTS && Fits(RUNNABLE, list)
    requires s' == s.(lists := Begin(s, c, L.Add, list, np), cpus := s.cpus[c := Queueing(np, InProc(p))],
                      lock := s.lock[np := Some(c)], st := s.st[np := RUNNABLE], child := s.child[p := None])
    ensures Inv(s')
  {
    assert CpuOk(s, c) && ProcOk(s, p);
    Placed(s, np, 0);
    RunsNowhereElse(s, c, np);
    BeginKeeps(s, c, L.Add, list, np);
    assert CpuOk(s', c);
    StartTouches(s, s', c, np, L.Call(L.Add, list, np, L.Want));
    ChildStep(s, s', c, np, p);
  }

  lemma ForkRunKeeps(s: State, c: nat)
    requires Inv(s) && Enabled(s, ForkRun(c))
    ensures Inv(Apply(s, ForkRun(c)))
  {
    var p := s.cpus[c].p;
    assert CpuOk(s, c);
    ChildQueued(s, Apply(s, ForkRun(c)), c, p, s.child[p].value, RunnableList(s.cpuNum[p]));
  }

  predicate SchedulerEvent(e: Event) {
    e.SchedPeek? || e.SchedNone? || e.SchedPick? || e.SchedRun? || e.Dispatch? || e.Sched? || e.ListStep?
  }

  predicate AllocEvent(e: Event) {
    e.ForkPeek? || e.BootPeek? || e.AllocNone? || e.AllocPick? || e.AllocLock? || e.AllocDone? || e.ForkRun?
  }

  lemma SchedulerKeeps(s: State, e: Event)
    requires Inv(s) && Enabled(s, e) && SchedulerEvent(e)
    ensures Inv(Apply(s, e))
  {
    match e
    case ListStep(c, le) => ListStepKeeps(s, c, le);
    case SchedPeek(_) => PeekKeeps(s, e);
    case SchedNone(_) => NoneKeeps(s, e);
    case SchedPick(_) => PickKeeps(s, e);
    case SchedRun(c) => SchedRunKeeps(s, c);
    case Dispatch(c) => DispatchKeeps(s, c);
    case Sched(c) => SchedKeeps(s, c);
  }

  lemma AllocKeeps(s: State, e: Event)
    requires Inv(s) && Enabled(s, e) && AllocEvent(e)
    ensures Inv(Apply(s, e))
  {
    match e
    case ForkPeek(_) => PeekKeeps(s, e);
    case BootPeek(_) => PeekKeeps(s, e);
    case AllocNone(_) => NoneKeeps(s, e);
    case AllocPick(_) => PickKeeps(s, e);
    case AllocLock(c) => AllocLockKeeps(s, c);
    case AllocDone(c) => if s.cpus[c].ret.InProc? { AllocDoneKeeps(s, c); } else { BootAllocDoneKeeps(s, c); }
    case ForkRun(c) => ForkRunKeeps(s, c);
  }

  lemma ProcessKeeps(s: State, e: Event)
    requires Inv(s) && Enabled(s, e) && !SchedulerEvent(e) && !AllocEvent(e)
    ensures Inv(Apply(s, e))
  {
    match e
    case Yield(c) => YieldKeeps(s, c);
    case Exit(c) => ExitKeeps(s, c);
    case Sleep(c) => SleepKeeps(s, c);
    case Asleep(c) => AsleepKeeps(s, c);
    case Queued(c) => QueuedKeeps(s, c);
    case Reap(c, q) => ReapKeeps(s, c, q);
    case Freed(c) => FreedKeeps(s, c);
    case Wakeup(c, q) => WakeupKeeps(s, c, q);
    case Kill(c, q) => KillKeeps(s, c, q);
    case Woken(c) => WokenKeeps(s, c);
    case SetCpu(c, n) => SetCpuKeeps(s, c, n);
  }

  lemma StepKeeps(s: State, e: Event)
    requires Inv(s) && Enabled(s, e)
    ensures Inv(Apply(s, e))
  {
    if SchedulerEvent(e) {
      SchedulerKeeps(s, e);
    } else if AllocEvent(e) {
      AllocKeeps(s, e);
    } else {
      ProcessKeeps(s, e);
    }
  }

  // ---- whole runs

  /** procinit is done with the lists, and all CPUs are in their scheduler loops. */
  ghost predicate Init(s: State) {
    && s.lists.calls == map[]
    && (exists states, events :: B.Procinit(states, events) && s.lists == states[|events|])
    && s.st == seq(NPROC, p => UNUSED) && s.lock == seq(NPROC, p => None)
    && s.cpuNum == seq(NPROC, p => 0) && s.child == seq(NPROC, p => None)
    && s.cpus == seq(NCPU, c => Idle) && s.current == seq(NCPU, c => None) && !s.booted
  }

  lemma InitInv(s: State)
    requires Init(s)
    ensures Inv(s)
  {
    var states, events :| B.Procinit(states, events) && s.lists == states[|events|];
    B.AllUnused(states, events);
    var m := s.lists.m;
    forall p | 0 <= p < NPROC ensures ProcOk(s, p) {
      assert m.abs[UNUSED_LIST][p] == p;
      assert p in m.abs[UNUSED_LIST] && Fits(UNUSED, UNUSED_LIST);
    }
  }

  /** There is a state to start in. */
  lemma Boots() returns (s: State)
    ensures Init(s)
  {
    var states, events := B.ProcinitRuns();
    s := State(states[|events|], seq(NPROC, p => UNUSED), seq(NPROC, p => None), seq(NPROC, p => 0),
               seq(NPROC, p => None),
               seq(NCPU, c => Idle), seq(NCPU, c => None), false);
  }

  ghost predicate Run(states: seq<State>, events: seq<Event>) {
    && |states| == |events| + 1 && Init(states[0])
    && forall i :: 0 <= i < |events| ==>
         Shape(states[i]) && Enabled(states[i], events[i]) && states[i + 1] == Apply(states[i], events[i])
  }

  lemma {:induction false} RunKeeps(states: seq<State>, events: seq<Event>, i: nat)
    requires Run(states, events) && i <= |events|
    ensures Inv(states[i])
  {
    if i == 0 {
      InitInv(states[0]);
    } else {
      RunKeeps(states, events, i - 1);
      StepKeeps(states[i - 1], events[i - 1]);
    }
  }

  /** State and lists agree. Whenever p->lock is free, p is on exactly one list, the one its state names, or
      on none at all when it is USED or RUNNING. */
  lemma StatesAgree(states: seq<State>, events: seq<Event>, i: nat, p: nat)
    requires Run(states, events) && i <= |events| && p < NPROC
    requires Shape(states[i]) && states[i].lock[p] == None
    ensures Agrees(states[i].lists.m.abs, states[i].st[p], p)
    ensures var abs := states[i].lists.m.abs;
      forall l, l' :: 0 <= l < |abs| && 0 <= l' < |abs| && p in abs[l] && p in abs[l'] ==> l == l'
  {
    RunKeeps(states, events, i);
    assert ProcOk(states[i], p);
  }

  /** No process is ever the current process of two CPUs. */
  lemma NeverTwice(states: seq<State>, events: seq<Event>, i: nat, c: nat, d: nat)
    requires Run(states, events) && i <= |events| && c < NCPU && d < NCPU && c != d
    requires Shape(states[i]) && states[i].current[c].Some?
    ensures states[i].current[c] != states[i].current[d]
  {
    RunKeeps(states, events, i);
    assert CpuOk(states[i], c) && CpuOk(states[i], d);
  }

  /** When allocproc has locked its slot, that slot is UNUSED and on the unused list, runs on no CPU and is
      nobody's pending child, although the list lock was released before the slot is taken off the list. */
  lemma NoDoubleAllocation(states: seq<State>, events: seq<Event>, i: nat)
    requires Run(states, events) && i < |events| && events[i].AllocLock?
    ensures var s := states[i]; var np := s.cpus[events[i].c].np;
      && np < NPROC && s.st[np] == UNUSED && |s.lists.m.abs| == L.NLISTS && np in s.lists.m.abs[UNUSED_LIST]
      && (forall c :: 0 <= c < NCPU ==> s.current[c] != Some(np))
      && (forall p :: 0 <= p < NPROC ==> s.child[p] != Some(np))
  {
    RunKeeps(states, events, i);
    var s := states[i];
    var np := s.cpus[events[i].c].np;
    assert CpuOk(s, events[i].c);
    SeenFirst(s, events[i].c, UNUSED_LIST, np);
    Placed(s, np, UNUSED_LIST);
    forall c | 0 <= c < NCPU ensures s.current[c] != Some(np) {
      assert CpuOk(s, c);
    }
    forall p | 0 <= p < NPROC ensures s.child[p] != Some(np) {
      assert ProcOk(s, p);
    }
  }

  /** The scheduler only ever switches to a RUNNABLE process, and it comes from its own list. */
  lemma SchedulesRunnable(states: seq<State>, events: seq<Event>, i: nat)
    requires Run(states, events) && i < |events| && events[i].SchedRun?
    ensures var s := states[i]; var p := s.cpus[events[i].c].p;
      && p < NPROC && s.st[p] == RUNNABLE && |s.lists.m.abs| == L.NLISTS
      && p in s.lists.m.abs[RunnableList(events[i].c)]
  {
    RunKeeps(states, events, i);
    var s := states[i];
    assert CpuOk(s, events[i].c);
    SeenFirst(s, events[i].c, RunnableList(events[i].c), s.cpus[events[i].c].p);
    Placed(s, s.cpus[events[i].c].p, RunnableList(events[i].c));
  }

  /** Every list call the kernel makes is legal, so no removal ever panics or walks off its list. */
  lemma NoListPanic(states: seq<State>, events: seq<Event>, i: nat, c: nat)
    requires Run(states, events) && i <= |events|
    requires c in states[i].lists.calls && states[i].lists.calls[c].kind == L.Remove
    ensures var call := states[i].lists.calls[c]; var m := states[i].lists.m;
      && call.list < L.NLISTS == |m.first| == |m.abs| && call.idx in m.abs[call.list]
      && (call.pc == L.Locked ==> m.first[call.list] != -1)
      && (call.pc.At? ==> 0 <= call.pc.nxt < NPROC)
  {
    RunKeeps(states, events, i);
    L.NoPanic(states[i].lists, c);
    assert L.CallOk(states[i].lists.m, states[i].lists.calls[c]);
  }
}
