/** Two forks that wait for each other: a run that ends with the clash of ProcProgress. */
module ProcDeadlock {
  import opened Params
  import L = ProcLists
  import B = ProcInit
  import opened ProcStates
  import opened ProcProgress

  /** A state, but for the pointers that make up its lists. */
  datatype View = View(
    abs: seq<seq<nat>>, calls: map<nat, L.Call>, st: seq<PState>, lock: seq<Option<nat>>, cpuNum: seq<nat>,
    child: seq<Option<nat>>, cpus: seq<Pc>, current: seq<Option<nat>>, booted: bool)

  function Of(s: State): View {
    View(s.lists.m.abs, s.lists.calls, s.st, s.lock, s.cpuNum, s.child, s.cpus, s.current, s.booted)
  }

  /** What is needed of the invariant. */
  ghost predicate Plain(s: State) {
    && Shape(s) && |s.lists.m.first| == |s.lists.m.abs| == L.NLISTS && |s.lists.m.next| == L.NPROC
    && (forall l :: 0 <= l < L.NLISTS ==> L.NoDup(s.lists.m.abs[l]))
    && (forall c :: c in s.lists.calls ==> CallPlain(s.lists.m, s.lists.calls[c]))
  }

  ghost predicate CallPlain(m: L.Lists, call: L.Call) {
    && call.list < |m.first| && call.list < |m.abs| && call.idx < NPROC
    && (call.pc == L.Locked ==> m.first[call.list] == L.Head(m.abs[call.list]))
  }

  /** `ok` holds of what can be reached. */
  ghost predicate Closed(ok: State -> bool) {
    && (forall s :: ok(s) ==> Plain(s))
    && (forall s, e :: ok(s) && Shape(s) && Enabled(s, e) ==> ok(Apply(s, e)))
  }

  // ---- list calls

  predicate OneCall(s: State, c: nat, call: L.Call) {
    c < NCPU && s.lists.calls == map[c := call]
  }

  lemma LockStep(ok: State -> bool, s: State, c: nat) returns (s': State)
    requires Closed(ok) && ok(s) && c < NCPU && c in s.lists.calls
    requires forall t :: t in s.lists.calls ==> s.lists.calls[t].pc == L.Want
    ensures ok(s')
    ensures Of(s') == Of(s).(calls := s.lists.calls[c := s.lists.calls[c].(pc := L.Locked)])
  {
    assert CallPlain(s.lists.m, s.lists.calls[c]) && L.Free(s.lists, L.ListLock(s.lists.calls[c].list));
    var e := ListStep(c, L.LockList(c));
    assert Enabled(s, e);
    s' := Apply(s, e);
  }

  lemma TakeStep(ok: State -> bool, s: State, c: nat, l: nat, x: nat) returns (s': State)
    requires Closed(ok) && ok(s) && Shape(s) && OneCall(s, c, L.Call(L.Remove, l, x, L.Locked))
    requires l < |s.lists.m.abs| && s.lists.m.abs[l] != [] && s.lists.m.abs[l][0] == x
    ensures ok(s') && Of(s') == Of(s).(abs := s.lists.m.abs[l := s.lists.m.abs[l][1..]], calls := map[])
  {
    var e := ListStep(c, L.TakeFirst(c));
    assert Enabled(s, e);
    var s1 := Apply(s, e);
    var e1 := ListStep(c, L.UnlinkFirst(c));
    assert Enabled(s1, e1);
    s' := Apply(s1, e1);
    IndexIs(s.lists.m.abs[l], 0);
    assert L.Delete(s.lists.m.abs[l], x) == s.lists.m.abs[l][1..];
    assert s'.lists.calls == map[];
  }

  /** remove_proc_from_list of the first element. */
  lemma TakesOff(ok: State -> bool, s: State, c: nat, l: nat, x: nat) returns (s': State)
    requires Closed(ok) && ok(s) && Shape(s) && OneCall(s, c, L.Call(L.Remove, l, x, L.Want))
    requires l < |s.lists.m.abs| && s.lists.m.abs[l] != [] && s.lists.m.abs[l][0] == x
    ensures ok(s') && Of(s') == Of(s).(abs := s.lists.m.abs[l := s.lists.m.abs[l][1..]], calls := map[])
  {
    s' := LockStep(ok, s, c);
    s' := TakeStep(ok, s', c, l, x);
  }

  lemma PutStep(ok: State -> bool, s: State, c: nat, l: nat, x: nat) returns (s': State)
    requires Closed(ok) && ok(s) && Shape(s) && OneCall(s, c, L.Call(L.Add, l, x, L.Locked))
    requires l < |s.lists.m.abs| && s.lists.m.abs[l] == []
    ensures ok(s') && Of(s') == Of(s).(abs := s.lists.m.abs[l := [x]], calls := map[])
  {
    var e := ListStep(c, L.SetFirst(c));
    assert Enabled(s, e);
    s' := PutDone(ok, Apply(s, e), c, l, x);
  }

  lemma PutDone(ok: State -> bool, s: State, c: nat, l: nat, x: nat) returns (s': State)
    requires Closed(ok) && ok(s) && Shape(s) && OneCall(s, c, L.Call(L.Add, l, x, L.EmptySet))
    requires l < |s.lists.m.abs| && s.lists.m.abs[l] == []
    ensures ok(s') && Of(s') == Of(s).(abs := s.lists.m.abs[l := [x]], calls := map[])
  {
    var e := ListStep(c, L.FinishEmpty(c));
    assert Enabled(s, e);
    s' := Apply(s, e);
    assert s.lists.m.abs[l] + [x] == [x];
    assert s'.lists.calls == map[];
  }

  /** add_proc_to_list on an empty list. */
  lemma PutsOn(ok: State -> bool, s: State, c: nat, l: nat, x: nat) returns (s': State)
    requires Closed(ok) && ok(s) && Shape(s) && OneCall(s, c, L.Call(L.Add, l, x, L.Want))
    requires l < |s.lists.m.abs| && s.lists.m.abs[l] == []
    ensures ok(s') && Of(s') == Of(s).(abs := s.lists.m.abs[l := [x]], calls := map[])
  {
    s' := LockStep(ok, s, c);
    s' := PutStep(ok, s', c, l, x);
  }

  // ---- the scheduler

  lemma PickStep(ok: State -> bool, s: State, c: nat, p: nat) returns (s': State)
    requires Closed(ok) && ok(s) && Shape(s) && OneCall(s, c, L.Call(L.Peek, RunnableList(c), 0, L.Locked))
    requires s.cpus[c] == Peeking && p < NPROC && s.lock[p] == None
    requires RunnableList(c) < |s.lists.m.abs| && s.lists.m.abs[RunnableList(c)] == [p]
    ensures ok(s')
    ensures Of(s') == Of(s).(calls := map[c := L.Call(L.Remove, RunnableList(c), p, L.Want)],
                             cpus := s.cpus[c := Picked(p)][c := Chosen(p)], lock := s.lock[p := Some(c)],
                             st := s.st[p := RUNNING], current := s.current[c := Some(p)])
  {
    assert Peeked(s, c, RunnableList(c), p);
    assert Enabled(s, SchedPick(c));
    var s1 := Apply(s, SchedPick(c));
    assert Enabled(s1, SchedRun(c));
    s' := Apply(s1, SchedRun(c));
    assert s'.lists.calls == map[c := L.Call(L.Remove, RunnableList(c), p, L.Want)];
  }

  /** The scheduler of CPU c takes p from its list and switches to it. */
  lemma Schedules(ok: State -> bool, s: State, c: nat, p: nat) returns (s': State)
    requires Closed(ok) && ok(s) && Shape(s) && c < NCPU && p < NPROC && s.lists.calls == map[] && s.cpus[c] == Idle
    requires s.lock[p] == None && |s.lists.m.abs| == L.NLISTS && s.lists.m.abs[RunnableList(c)] == [p]
    ensures ok(s')
    ensures Of(s') == Of(s).(abs := s.lists.m.abs[RunnableList(c) := []], st := s.st[p := RUNNING],
                             cpus := s.cpus[c := Running(p)], current := s.current[c := Some(p)])
  {
    assert Enabled(s, SchedPeek(c));
    var s1 := LockStep(ok, Apply(s, SchedPeek(c)), c);
    var s2 := PickStep(ok, s1, c, p);
    var s3 := TakesOff(ok, s2, c, RunnableList(c), p);
    s' := DispatchStep(ok, s3, c, p);
    assert s'.lock == s.lock && s'.cpus == s.cpus[c := Running(p)] && s'.lists.m.abs[RunnableList(c)] == [];
  }

  lemma DispatchStep(ok: State -> bool, s: State, c: nat, p: nat) returns (s': State)
    requires Closed(ok) && ok(s) && Shape(s) && c < NCPU && p < NPROC && s.lists.calls == map[]
             && s.cpus[c] == Chosen(p)
    ensures ok(s') && Of(s') == Of(s).(cpus := s.cpus[c := Running(p)], lock := s.lock[p := None])
  {
    assert Enabled(s, Dispatch(c));
    s' := Apply(s, Dispatch(c));
  }

  // ---- allocproc

  lemma ChooseStep(ok: State -> bool, s: State, c: nat, np: nat, ret: Ret) returns (s': State)
    requires Closed(ok) && ok(s) && Shape(s) && OneCall(s, c, L.Call(L.Peek, UNUSED_LIST, 0, L.Locked))
    requires s.cpus[c] == AllocPeek(ret) && np < NPROC && s.lock[np] == None
    requires UNUSED_LIST < |s.lists.m.abs| && s.lists.m.abs[UNUSED_LIST] != [] && s.lists.m.abs[UNUSED_LIST][0] == np
    ensures ok(s')
    ensures Of(s') == Of(s).(calls := map[c := L.Call(L.Remove, UNUSED_LIST, np, L.Want)],
                             cpus := s.cpus[c := AllocPicked(np, ret)][c := Alloc(np, ret)],
                             lock := s.lock[np := Some(c)])
  {
    assert Peeked(s, c, UNUSED_LIST, np);
    s' := AcquireStep(ok, Apply(s, AllocPick(c)), c, np, ret);
  }

  lemma AcquireStep(ok: State -> bool, s: State, c: nat, np: nat, ret: Ret) returns (s': State)
    requires Closed(ok) && ok(s) && Shape(s) && OneCall(s, c, L.Call(L.Peek, UNUSED_LIST, 0, L.Locked))
    requires s.cpus[c] == AllocPicked(np, ret) && np < NPROC && s.lock[np] == None
    ensures ok(s')
    ensures Of(s') == Of(s).(calls := map[c := L.Call(L.Remove, UNUSED_LIST, np, L.Want)],
                             cpus := s.cpus[c := Alloc(np, ret)], lock := s.lock[np := Some(c)])
  {
    assert Enabled(s, AllocLock(c));
    s' := Apply(s, AllocLock(c));
    assert s'.lists.calls == map[c := L.Call(L.Remove, UNUSED_LIST, np, L.Want)];
  }

  /** allocproc up to the call of remove_proc_from_list. */
  lemma Chooses(ok: State -> bool, s: State, c: nat, np: nat, p: nat) returns (s': State)
    requires Closed(ok) && ok(s) && Shape(s) && c < NCPU && np < NPROC && s.lists.calls == map[] && s.lock[np] == None
    requires p < NPROC && s.cpus[c] == Running(p) && s.child[p] == None
    requires UNUSED_LIST < |s.lists.m.abs| && s.lists.m.abs[UNUSED_LIST] != [] && s.lists.m.abs[UNUSED_LIST][0] == np
    ensures ok(s')
    ensures Of(s') == Of(s).(calls := map[c := L.Call(L.Remove, UNUSED_LIST, np, L.Want)],
                             cpus := s.cpus[c := Alloc(np, InProc(p))], lock := s.lock[np := Some(c)])
  {
    assert Enabled(s, ForkPeek(c));
    var s1 := LockStep(ok, Apply(s, ForkPeek(c)), c);
    s' := ChooseStep(ok, s1, c, np, InProc(p));
    assert s'.cpus == s.cpus[c := Alloc(np, InProc(p))];
  }

  // ---- userinit and fork

  /** userinit on CPU 0. */
  lemma Boots0(ok: State -> bool, s: State) returns (s': State)
    requires Closed(ok) && ok(s) && Shape(s) && s.lists.calls == map[] && s.cpus[0] == Idle && !s.booted
    requires |s.lists.m.abs| == L.NLISTS && s.lists.m.abs[3] == [] && s.lock[0] == None
    requires s.lists.m.abs[UNUSED_LIST] != [] && s.lists.m.abs[UNUSED_LIST][0] == 0
    ensures ok(s')
    ensures Of(s') == Of(s).(abs := s.lists.m.abs[UNUSED_LIST := s.lists.m.abs[UNUSED_LIST][1..]][3 := [0]],
                             st := s.st[0 := RUNNABLE], booted := true)
  {
    var s1 := BootChooses(ok, s);
    var s2 := TakesOff(ok, s1, 0, UNUSED_LIST, 0);
    s' := Queues(ok, s2);
    assert s'.lock == s.lock && s'.cpus == s.cpus;
  }

  lemma BootChooses(ok: State -> bool, s: State) returns (s': State)
    requires Closed(ok) && ok(s) && Shape(s) && s.lists.calls == map[] && s.cpus[0] == Idle && !s.booted
    requires |s.lists.m.abs| == L.NLISTS && s.lock[0] == None
    requires s.lists.m.abs[UNUSED_LIST] != [] && s.lists.m.abs[UNUSED_LIST][0] == 0
    ensures ok(s')
    ensures Of(s') == Of(s).(calls := map[0 := L.Call(L.Remove, UNUSED_LIST, 0, L.Want)], booted := true,
                             cpus := s.cpus[0 := Alloc(0, InScheduler)], lock := s.lock[0 := Some(0)])
  {
    assert Enabled(s, BootPeek(0));
    var s1 := LockStep(ok, Apply(s, BootPeek(0)), 0);
    s' := ChooseStep(ok, s1, 0, 0, InScheduler);
    assert s'.cpus == s.cpus[0 := Alloc(0, InScheduler)];
  }

  lemma Queues(ok: State -> bool, s: State) returns (s': State)
    requires Closed(ok) && ok(s) && Shape(s) && s.lists.calls == map[] && s.cpus[0] == Alloc(0, InScheduler)
    requires |s.lists.m.abs| == L.NLISTS && s.lists.m.abs[3] == []
    ensures ok(s')
    ensures Of(s') == Of(s).(abs := s.lists.m.abs[3 := [0]], st := s.st[0 := RUNNABLE], lock := s.lock[0 := None],
                             cpus := s.cpus[0 := Queueing(0, InScheduler)][0 := Idle])
  {
    assert Enabled(s, AllocDone(0));
    var s1 := PutsOn(ok, Apply(s, AllocDone(0)), 0, 3, 0);
    s' := LetGo(ok, s1, 0, InScheduler);
  }

  /** The lock of a process that is on its list now is released. */
  lemma LetGo(ok: State -> bool, s: State, q: nat, ret: Ret) returns (s': State)
    requires Closed(ok) && ok(s) && Shape(s) && s.lists.calls == map[] && s.cpus[0] == Queueing(q, ret) && q < NPROC
    ensures ok(s') && Of(s') == Of(s).(cpus := s.cpus[0 := RetPc(ret)], lock := s.lock[q := None])
  {
    assert Enabled(s, Queued(0));
    s' := Apply(s, Queued(0));
  }

  /** Process 0, on CPU 0, forks process 1 onto CPU 1. */
  lemma Forks(ok: State -> bool, s: State) returns (s': State)
    requires Closed(ok) && ok(s) && Shape(s) && s.lists.calls == map[] && s.cpus[0] == Running(0) && s.child[0] == None
    requires |s.lists.m.abs| == L.NLISTS && s.lists.m.abs[4] == [] && s.lock[1] == None && s.cpuNum[0] == 1
    requires s.lists.m.abs[UNUSED_LIST] != [] && s.lists.m.abs[UNUSED_LIST][0] == 1
    ensures ok(s')
    ensures Of(s') == Of(s).(abs := s.lists.m.abs[UNUSED_LIST := s.lists.m.abs[UNUSED_LIST][1..]][4 := [1]],
                             st := s.st[1 := USED][1 := RUNNABLE])
  {
    var s1 := Chooses(ok, s, 0, 1, 0);
    var s2 := TakesOff(ok, s1, 0, UNUSED_LIST, 1);
    assert Enabled(s2, AllocDone(0));
    s' := Hands(ok, Apply(s2, AllocDone(0)));
    assert s'.lock == s.lock && s'.cpus == s.cpus && s'.child == s.child;
  }

  lemma Hands(ok: State -> bool, s: State) returns (s': State)
    requires Closed(ok) && ok(s) && Shape(s) && s.lists.calls == map[] && s.cpus[0] == Running(0)
    requires s.child[0] == Some(1) && s.lock[1] == None && s.cpuNum[0] == 1
    requires |s.lists.m.abs| == L.NLISTS && s.lists.m.abs[4] == []
    ensures ok(s')
    ensures Of(s') == Of(s).(abs := s.lists.m.abs[4 := [1]], st := s.st[1 := RUNNABLE],
                             lock := s.lock[1 := Some(0)][1 := None], child := s.child[0 := None],
                             cpus := s.cpus[0 := Queueing(1, InProc(0))][0 := Running(0)])
  {
    assert Enabled(s, ForkRun(0));
    var s1 := PutsOn(ok, Apply(s, ForkRun(0)), 0, 4, 1);
    s' := LetGo(ok, s1, 1, InProc(0));
  }

  // ---- the run

  /** Both processes fork: CPU 0 has chosen process 2 and not yet taken it off, and CPU 1 chooses it too. */
  lemma Collide(ok: State -> bool, s: State) returns (s': State)
    requires Closed(ok) && ok(s) && Shape(s) && s.lists.calls == map[] && s.lock[2] == None
    requires s.cpus[0] == Running(0) && s.cpus[1] == Running(1) && s.child[0] == s.child[1] == None
    requires |s.lists.m.abs| == L.NLISTS && s.lists.m.abs[UNUSED_LIST] != [] && s.lists.m.abs[UNUSED_LIST][0] == 2
    ensures ok(s') && Clashes(s')
  {
    var s1 := Chooses(ok, s, 0, 2, 0);
    assert Enabled(s1, ForkPeek(1));
    var s2 := LockStep(ok, Apply(s1, ForkPeek(1)), 1);
    s' := Grab(ok, s2);
  }

  lemma Grab(ok: State -> bool, s: State) returns (s': State)
    requires Closed(ok) && ok(s) && Shape(s) && s.cpus[0].Alloc? && s.cpus[0].np == 2 && s.cpus[1].AllocPeek?
    requires 0 in s.lists.calls && s.lists.calls[0].pc == L.Want
    requires 1 in s.lists.calls && s.lists.calls[1] == L.Call(L.Peek, UNUSED_LIST, 0, L.Locked)
    requires |s.lists.m.abs| == L.NLISTS && s.lists.m.abs[UNUSED_LIST] != [] && s.lists.m.abs[UNUSED_LIST][0] == 2
    ensures ok(s') && Clashes(s')
  {
    assert CallPlain(s.lists.m, s.lists.calls[1]);
    assert Peeked(s, 1, UNUSED_LIST, 2);
    s' := Apply(s, AllocPick(1));
    assert Clash(s', 1, 0);
  }

  lemma Runs(ok: State -> bool, s: State) returns (s': State)
    requires Closed(ok) && ok(s) && Shape(s) && Fresh(s)
    ensures ok(s') && Clashes(s')
  {
    var s1 := Boots0(ok, s);
    var s2 := Schedules(ok, s1, 0, 0);
    assert Enabled(s2, SetCpu(0, 1));
    var s3 := Forks(ok, Apply(s2, SetCpu(0, 1)));
    var s4 := Schedules(ok, s3, 1, 1);
    s' := Collide(ok, s4);
  }

  /** After procinit. */
  ghost predicate Fresh(s: State) {
    && Shape(s) && s.lists.calls == map[] && B.Filled(s.lists.m.abs, L.NPROC) && !s.booted
    && (forall c :: 0 <= c < NCPU ==> s.cpus[c] == Idle)
    && (forall p :: 0 <= p < NPROC ==> s.lock[p] == None && s.child[p] == None)
  }

  /** s comes after n steps. */
  ghost predicate After(n: nat, s: State) {
    if n == 0 then Init(s)
    else exists s0, e :: After(n - 1, s0) && StepTo(s0, e, s)
  }

  ghost predicate StepTo(s: State, e: Event, s': State) {
    Shape(s) && Enabled(s, e) && s' == Apply(s, e)
  }

  ghost predicate Reachable(s: State) {
    exists n: nat :: After(n, s)
  }

  lemma {:induction false} AfterInv(n: nat, s: State)
    requires After(n, s)
    ensures Inv(s)
  {
    if n == 0 {
      InitInv(s);
    } else {
      var s0, e :| After(n - 1, s0) && StepTo(s0, e, s);
      AfterInv(n - 1, s0);
      StepKeeps(s0, e);
    }
  }

  lemma ReachablePlain(s: State)
    requires Reachable(s)
    ensures Plain(s)
  {
    var n: nat :| After(n, s);
    AfterInv(n, s);
    InvPlain(s);
  }

  lemma InvPlain(s: State)
    requires Inv(s)
    ensures Plain(s)
  {
    forall c | c in s.lists.calls ensures CallPlain(s.lists.m, s.lists.calls[c]) {
      assert L.CallOk(s.lists.m, s.lists.calls[c]);
      if s.lists.calls[c].pc == L.Locked { L.FirstIsHead(s.lists, c); }
    }
  }

  lemma ReachableNext(s: State, e: Event)
    requires Reachable(s) && Shape(s) && Enabled(s, e)
    ensures Reachable(Apply(s, e))
  {
    var n: nat :| After(n, s);
    assert StepTo(s, e, Apply(s, e));
    assert After(n + 1, Apply(s, e));
  }

  ghost predicate Steps(states: seq<State>, events: seq<Event>) {
    && |states| == |events| + 1
    && forall i :: 0 <= i < |events| ==>
         Shape(states[i]) && Enabled(states[i], events[i]) && states[i + 1] == Apply(states[i], events[i])
  }

  lemma Extend(states: seq<State>, events: seq<Event>, s: State, e: Event)
    requires Steps(states, events) && s == states[|events|] && Shape(s) && Enabled(s, e)
    ensures Steps(states + [Apply(s, e)], events + [e])
  {
  }

  lemma {:induction false} StepsTo(n: nat, s: State) returns (states: seq<State>, events: seq<Event>)
    requires After(n, s)
    ensures Steps(states, events) && Init(states[0]) && states[|events|] == s
  {
    if n == 0 {
      states, events := [s], [];
    } else {
      var s0, e :| After(n - 1, s0) && StepTo(s0, e, s);
      states, events := StepsTo(n - 1, s0);
      Extend(states, events, s0, e);
      states, events := states + [s], events + [e];
    }
  }

  /** Two processes that fork at the same time can wait for each other. */
  lemma ForksDeadlock() returns (states: seq<State>, events: seq<Event>)
    ensures Run(states, events) && Clashes(states[|events|])
  {
    var s0 := Boots();
    InitFresh(s0);
    assert After(0, s0);
    ghost var ok: State -> bool := s => Reachable(s);
    forall s | ok(s) ensures Plain(s) { ReachablePlain(s); }
    forall s, e | ok(s) && Shape(s) && Enabled(s, e) ensures ok(Apply(s, e)) { ReachableNext(s, e); }
    var s := Runs(ok, s0);
    var n: nat :| After(n, s);
    states, events := StepsTo(n, s);
  }

  lemma InitFresh(s: State)
    requires Init(s)
    ensures Fresh(s)
  {
    var states, events :| B.Procinit(states, events) && s.lists == states[|events|];
    B.AllUnused(states, events);
  }
}
