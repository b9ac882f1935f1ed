/** No deadlock: list locks are taken in the order of the lists, process locks before or for a moment inside them, so
    that whoever waits, waits in the end for a CPU that can go on. */
module ProcProgress {
  import opened Params
  import L = ProcLists
  import opened ProcStates

  // ---- the list locks

  /** The element a walk has left behind and still has locked, or -1. */
  function Behind(pc: L.Pc): int {
    if pc.At? || pc.Both? || pc.Ready? then pc.prev else -1
  }

  /** It is the one before the cursor. */
  ghost predicate BehindOk(m: L.Lists, c: L.Call) {
    Behind(c.pc) >= 0 ==>
      && c.list < |m.abs| && Behind(c.pc) < |m.next|
      && Behind(c.pc) in m.abs[c.list] && m.next[Behind(c.pc)] == c.pc.curr
  }

  ghost predicate BehindsOk(s: L.State) {
    forall t :: t in s.calls ==> BehindOk(s.m, s.calls[t])
  }

  lemma MoveBehind(s: L.State, e: L.Event)
    requires L.Inv(s) && BehindsOk(s) && L.Enabled(s, e) && !e.FinishEmpty? && !e.UnlinkFirst? && !e.Finish?
    ensures BehindsOk(L.Apply(s, e))
  {
    var s' := L.Apply(s, e);
    if e.t in s.calls { assert L.CallOk(s.m, s.calls[e.t]); }
    forall t | t in s'.calls ensures BehindOk(s'.m, s'.calls[t]) {
      if t in s.calls { assert BehindOk(s.m, s.calls[t]); }
    }
  }

  lemma ReturnBehind(s: L.State, e: L.Event)
    requires L.Inv(s) && BehindsOk(s) && L.Enabled(s, e) && (e.FinishEmpty? || e.UnlinkFirst? || e.Finish?)
    ensures BehindsOk(L.Apply(s, e))
  {
    var s' := L.Apply(s, e);
    forall t | t in s'.calls ensures BehindOk(s'.m, s'.calls[t]) {
      if Behind(s.calls[t].pc) >= 0 { BehindStays(s, e, t); }
    }
  }

  /** Nobody else touches what a walk has locked. */
  lemma BehindStays(s: L.State, e: L.Event, t: nat)
    requires L.Inv(s) && L.Enabled(s, e) && (e.FinishEmpty? || e.UnlinkFirst? || e.Finish?)
    requires t in s.calls && t != e.t && BehindOk(s.m, s.calls[t]) && Behind(s.calls[t].pc) >= 0
    ensures BehindOk(L.Apply(s, e).m, s.calls[t])
  {
    var c, d := s.calls[e.t], s.calls[t];
    assert L.CallOk(s.m, c) && L.CallOk(s.m, d);
    assert L.Holds(d, L.StateLock(Behind(d.pc))) && !L.Holds(c, L.StateLock(Behind(d.pc)));
    L.OthersStay(s, e, Behind(d.pc));
  }

  lemma ListBehind(s: L.State, e: L.Event)
    requires L.Inv(s) && BehindsOk(s) && L.Enabled(s, e)
    ensures BehindsOk(L.Apply(s, e))
  {
    if e.FinishEmpty? || e.UnlinkFirst? || e.Finish? { ReturnBehind(s, e); } else { MoveBehind(s, e); }
  }

  /** The lock a call must have next. */
  function Wants(m: L.Lists, c: L.Call): Option<L.Lock>
    requires c.list < |m.first|
  {
    match c.pc
    case Want => Some(L.ListLock(c.list))
    case Locked => if c.kind == L.Peek || m.first[c.list] == -1 then None else Some(L.StateLock(m.first[c.list]))
    case EmptySet => Some(L.StateLock(c.idx))
    case At(_, _, nxt, _) => if nxt == -1 then Some(L.StateLock(c.idx)) else Some(L.StateLock(nxt))
    case _ => None
  }

  /** A call that has what it wants, or wants nothing, goes on. */
  lemma GoesOn(s: L.State, t: nat) returns (e: L.Event)
    requires L.Inv(s) && t in s.calls && s.calls[t].list < |s.m.first|
    requires !(s.calls[t].kind == L.Peek && s.calls[t].pc == L.Locked)
    requires Wants(s.m, s.calls[t]).Some? ==> L.Free(s, Wants(s.m, s.calls[t]).value)
    ensures e.t == t && !e.Start? && !e.Unpeek? && L.Enabled(s, e)
  {
    var c := s.calls[t];
    assert L.CallOk(s.m, c);
    match c.pc
    case Want => e := L.LockList(t);
    case Locked =>
      L.FirstIsHead(s, t);
      assert L.Chain(s.m.next, s.m.abs[c.list]);
      if s.m.first[c.list] == -1 {
        e := L.SetFirst(t);
      } else if c.kind == L.Remove && s.m.first[c.list] == c.idx {
        e := L.TakeFirst(t);
      } else {
        e := L.LockFirst(t);
      }
    case EmptySet => e := L.FinishEmpty(t);
    case First => e := L.UnlinkFirst(t);
    case At(prev, curr, nxt, can) =>
      L.NextOf(s.m, c, curr);
      e := if nxt == -1 || (c.kind == L.Remove && nxt == c.idx) then L.LockSelf(t) else L.LockNext(t);
    case Both(_, _, _, _) => e := L.Advance(t);
    case Ready(_, _, _) => e := L.Finish(t);
  }

  /** How far a call has come on its list. */
  ghost function Place(s: L.State, t: nat): nat
    requires t in s.calls && s.calls[t].list < |s.m.abs|
  {
    var c := s.calls[t];
    if c.pc.Want? then 0
    else if c.pc.At? || c.pc.Both? || c.pc.Ready? then
      if c.pc.curr >= 0 && c.pc.curr in s.m.abs[c.list] then 2 + L.IndexOf(s.m.abs[c.list], c.pc.curr) else 1
    else 1
  }

  lemma IndexIs(s: seq<nat>, i: nat)
    requires L.NoDup(s) && i < |s|
    ensures s[i] in s && L.IndexOf(s, s[i]) == i
  {
  }

  predicate Walks(pc: L.Pc) {
    pc.At? || pc.Both? || pc.Ready?
  }

  /** A walk stands at an element of its list. */
  lemma WalkPlace(s: L.State, u: nat)
    requires L.Inv(s) && u in s.calls && Walks(s.calls[u].pc)
    ensures var c := s.calls[u];
      && c.list < L.NLISTS == |s.m.abs| && 0 <= c.pc.curr < L.NPROC == |s.m.next| && c.pc.curr in s.m.abs[c.list]
      && Place(s, u) == 2 + L.IndexOf(s.m.abs[c.list], c.pc.curr)
  {
    assert L.CallOk(s.m, s.calls[u]);
  }

  /** Element j of list l is locked by call u: u walks on that list and stands there, or just before or behind; or takes
      the first element off. */
  lemma Holder(s: L.State, u: nat, l: nat, j: nat)
    requires L.Inv(s) && BehindsOk(s) && u in s.calls && l < L.NLISTS && j < |s.m.abs[l]|
    requires L.Holds(s.calls[u], L.StateLock(s.m.abs[l][j]))
    ensures s.calls[u].list == l
    ensures s.calls[u].pc == L.First || Walks(s.calls[u].pc)
    ensures s.calls[u].pc == L.First ==> j == 0
    ensures Walks(s.calls[u].pc) ==>
              var p := Place(s, u); p == 2 + j || p == 3 + j || (p == 1 + j && !s.calls[u].pc.At?)
  {
    var c, x := s.calls[u], s.m.abs[l][j];
    assert L.CallOk(s.m, c) && BehindOk(s.m, c) && x in s.m.abs[l];
    IndexIs(s.m.abs[l], j);
    if c.pc == L.First {
      L.FirstIsHead(s, u);
    } else {
      WalkPlace(s, u);
      var i := L.IndexOf(s.m.abs[c.list], c.pc.curr);
      L.SuccessorAt(s.m.next, s.m.abs[c.list], i);
      if x == c.pc.curr {
      } else if x == Behind(c.pc) {
        var b := L.IndexOf(s.m.abs[c.list], x);
        L.SuccessorAt(s.m.next, s.m.abs[c.list], b);
        IndexIs(s.m.abs[c.list], b + 1);
      } else {
        assert s.m.next[c.pc.curr] == x;
      }
    }
  }

  /** The index a call adds is locked by nobody else. */
  lemma OwnIndexFree(s: L.State, t: nat, u: nat)
    requires L.Inv(s) && BehindsOk(s) && t in s.calls && u in s.calls && s.calls[t].kind == L.Add
    requires L.Holds(s.calls[u], L.StateLock(s.calls[t].idx))
    ensures u == t && s.calls[t].pc.Ready?
  {
    var c := s.calls[u];
    assert L.CallOk(s.m, s.calls[t]) && L.CallOk(s.m, c) && BehindOk(s.m, c);
    if Walks(c.pc) {
      L.NextOf(s.m, c, c.pc.curr);
    }
  }

  /** Who holds the lock that a call wants is further on the same list. */
  lemma Ahead(s: L.State, t: nat, u: nat)
    requires L.Inv(s) && BehindsOk(s) && t in s.calls && u in s.calls && s.calls[t].list < |s.m.first|
    requires Wants(s.m, s.calls[t]).Some? && L.Holds(s.calls[u], Wants(s.m, s.calls[t]).value)
    ensures s.calls[t].list == s.calls[u].list < |s.m.abs| && Place(s, t) < Place(s, u)
  {
    var c := s.calls[t];
    assert L.CallOk(s.m, c) && L.CallOk(s.m, s.calls[u]);
    if Walks(s.calls[u].pc) { WalkPlace(s, u); }
    if c.pc == L.Locked {
      L.FirstIsHead(s, t);
      Holder(s, u, c.list, 0);
      assert L.Holds(c, L.ListLock(c.list));
      assert s.calls[u].pc == L.First ==> L.Holds(s.calls[u], L.ListLock(c.list));
    } else if c.pc == L.EmptySet {
      OwnIndexFree(s, t, u);
    } else if c.pc.At? {
      AheadOfWalk(s, t, u);
    }
  }

  lemma AheadOfWalk(s: L.State, t: nat, u: nat)
    requires L.Inv(s) && BehindsOk(s) && t in s.calls && u in s.calls && s.calls[t].list < |s.m.first|
    requires s.calls[t].pc.At? && L.Holds(s.calls[u], Wants(s.m, s.calls[t]).value)
    ensures s.calls[t].list == s.calls[u].list < |s.m.abs| && Place(s, t) < Place(s, u)
  {
    var c := s.calls[t];
    assert L.CallOk(s.m, c);
    WalkPlace(s, t);
    var list := s.m.abs[c.list];
    var i := L.IndexOf(list, c.pc.curr);
    L.NextOf(s.m, c, c.pc.curr);
    L.SuccessorAt(s.m.next, list, i);
    if c.pc.nxt == -1 {
      OwnIndexFree(s, t, u);
    } else {
      Holder(s, u, c.list, i + 1);
      if Walks(s.calls[u].pc) && Place(s, u) == Place(s, t) {
        WalkPlace(s, u);
        assert L.Holds(s.calls[u], L.StateLock(c.pc.curr)) && L.Holds(c, L.StateLock(c.pc.curr));
      }
    }
  }

  // ---- who waits for whom

  /** List call t wants a lock that list call u holds. */
  ghost predicate Blocked(s: L.State, t: nat, u: nat) {
    && t in s.calls && u in s.calls && s.calls[t].list < |s.m.first|
    && Wants(s.m, s.calls[t]).Some? && L.Holds(s.calls[u], Wants(s.m, s.calls[t]).value)
  }

  /** The process whose lock a CPU is about to take while it has a list lock. */
  function Pending(pc: Pc): Option<nat> {
    match pc case Picked(p) => Some(p) case AllocPicked(np, _) => Some(np) case _ => None
  }

  ghost predicate WaitsFor(s: State, c: nat, d: nat)
    requires Shape(s)
  {
    && c < NCPU && d < NCPU
    && (Blocked(s.lists, c, d)
        || (Pending(s.cpus[c]).Some? && Pending(s.cpus[c]).value < NPROC
            && s.lock[Pending(s.cpus[c]).value] == Some(d)))
  }

  ghost predicate CanStep(s: State, c: nat)
    requires Shape(s)
  {
    exists e :: Enabled(s, e) && e.c == c
  }

  /** c waits for path[1], which waits for path[2], and so on, to the last. */
  ghost predicate Path(s: State, c: nat, path: seq<nat>)
    requires Shape(s)
  {
    && path != [] && path[0] == c
    && forall i {:trigger path[i]} :: 0 <= i < |path| - 1 ==> WaitsFor(s, path[i], path[i + 1])
  }

  /** c can go on, or waits for one that can. */
  ghost predicate Alive(s: State, c: nat)
    requires Shape(s)
  {
    exists path :: Path(s, c, path) && CanStep(s, path[|path| - 1])
  }

  /** CPU c is in allocproc, has the unused list locked and waits for its first process; CPU d has locked that process,
      in allocproc, and waits for the list to take the process off. */
  ghost predicate Clash(s: State, c: nat, d: nat)
    requires Shape(s)
  {
    && c < NCPU && d < NCPU && s.cpus[c].AllocPicked? && s.cpus[d].Alloc? && s.cpus[c].np == s.cpus[d].np
    && d in s.lists.calls && s.lists.calls[d].pc == L.Want
  }

  ghost predicate Clashes(s: State) {
    Shape(s) && exists c, d :: Clash(s, c, d)
  }

  lemma Stays(s: State, c: nat)
    requires Shape(s) && CanStep(s, c)
    ensures Alive(s, c)
  {
    assert Path(s, c, [c]);
  }

  lemma Follows(s: State, c: nat, d: nat)
    requires Shape(s) && WaitsFor(s, c, d) && Alive(s, d)
    ensures Alive(s, c)
  {
    var path :| Path(s, d, path) && CanStep(s, path[|path| - 1]);
    var p := [c] + path;
    forall i | 0 <= i < |p| - 1 ensures WaitsFor(s, p[i], p[i + 1]) {
      if i > 0 { assert path[i - 1] == p[i]; }
    }
    assert Path(s, c, p) && p[|p| - 1] == path[|path| - 1];
  }

  // ---- without such a pair everybody is alive

  /** A CPU that is in no list call can go on. */
  lemma FreeCpu(s: State, c: nat)
    requires Inv(s) && c < NCPU && !Busy(s, c)
    ensures CanStep(s, c)
  {
    assert CpuOk(s, c);
    var e := match s.cpus[c]
      case Chosen(_) => Dispatch(c)
      case Running(_) => SetCpu(c, 0)
      case FallAsleep(_) => Asleep(c)
      case Parking(_) => Sched(c)
      case Alloc(_, _) => AllocDone(c)
      case Queueing(_, _) => Queued(c)
      case Reaping(_, _) => Freed(c)
      case Waking(_, _, _) => Woken(c)
      case _ => SchedPeek(c);
    assert Enabled(s, e);
  }

  /** Who has locked a process that is first on a list, and is not taking it off, can go on. */
  lemma LockerFree(s: State, p: nat, l: nat, d: nat)
    requires Inv(s) && p < NPROC && s.lock[p] == Some(d) && l < L.NLISTS && p in s.lists.m.abs[l]
    requires l == UNUSED_LIST || l >= 3
    requires d < NCPU ==> l != RunnableList(d) && !s.cpus[d].Alloc?
    ensures d < NCPU && !Busy(s, d)
  {
    assert ProcOk(s, p);
    assert CpuOk(s, d);
    assert d in s.lists.calls ==> L.CallOk(s.lists.m, s.lists.calls[d]);
  }

  /** A CPU that has read the first element of a list. */
  lemma PeekAlive(s: State, c: nat)
    requires Inv(s) && c < NCPU && Busy(s, c)
    requires s.lists.calls[c].kind == L.Peek && s.lists.calls[c].pc == L.Locked && !Clashes(s)
    ensures Alive(s, c)
  {
    assert CpuOk(s, c) && L.CallOk(s.lists.m, s.lists.calls[c]);
    L.FirstIsHead(s.lists, c);
    var pc, list := s.cpus[c], s.lists.calls[c].list;
    var first := s.lists.m.first[list];
    assert Peeked(s, c, list, first);
    if pc.Peeking? || pc.AllocPeek? {
      var e := if pc.Peeking? then (if first == -1 then SchedNone(c) else SchedPick(c))
               else if first == -1 then AllocNone(c) else AllocPick(c);
      assert Enabled(s, e);
      Stays(s, c);
    } else {
      var p := first;
      SeenFirst(s, c, list, p);
      if s.lock[p] == None {
        assert Enabled(s, if pc.Picked? then SchedRun(c) else AllocLock(c));
        Stays(s, c);
      } else {
        PendingAlive(s, c, p, list, s.lock[p].value);
      }
    }
  }

  lemma PendingAlive(s: State, c: nat, p: nat, list: nat, d: nat)
    requires Inv(s) && c < NCPU && Pending(s.cpus[c]) == Some(p) && p < NPROC && s.lock[p] == Some(d) && !Clashes(s)
    requires CallOf(s.lists, c) == Some(L.Call(L.Peek, list, 0, L.Locked)) && list < L.NLISTS
    requires p in s.lists.m.abs[list] && s.lists.m.first[list] == p
    requires list == if s.cpus[c].Picked? then RunnableList(c) else UNUSED_LIST
    ensures Alive(s, c)
  {
    assert ProcOk(s, p) && CpuOk(s, d);
    assert d != c;
    if s.cpus[d].Alloc? {
      AllocWants(s, c, p, d);
      assert Clash(s, c, d);
    }
    LockerFree(s, p, list, d);
    FreeCpu(s, d);
    Stays(s, d);
    Follows(s, c, d);
  }

  /** d is taking p off the unused list, where it is first: it has not got the list lock that c has. */
  lemma AllocWants(s: State, c: nat, p: nat, d: nat)
    requires Inv(s) && c < NCPU && d < NCPU && p < NPROC && s.lock[p] == Some(d) && s.cpus[d].Alloc? && c != d
    requires CallOf(s.lists, c).Some? && s.lists.calls[c].pc == L.Locked
    requires s.lists.calls[c].list < L.NLISTS && p in s.lists.m.abs[s.lists.calls[c].list]
    requires s.lists.m.first[s.lists.calls[c].list] == p
    ensures s.lists.calls[c].list == UNUSED_LIST && s.cpus[d].np == p
    ensures d in s.lists.calls && s.lists.calls[d].pc == L.Want && s.lists.calls[d].list == UNUSED_LIST
  {
    assert ProcOk(s, p) && CpuOk(s, d);
    var call, l := s.lists.calls[d], s.lists.calls[c].list;
    assert L.CallOk(s.lists.m, call);
    L.FirstIsHead(s.lists, c);
    assert L.Holds(s.lists.calls[c], L.ListLock(l)) && !L.Holds(call, L.ListLock(l));
    assert Walks(call.pc) ==> L.Before(s.lists.m.abs[l], call.pc.curr, p);
  }

  /** A CPU inside a list call waits for calls further and further on its list. */
  lemma {:induction false} CallAlive(s: State, c: nat)
    requires Inv(s) && BehindsOk(s.lists) && c < NCPU && Busy(s, c) && !Clashes(s)
    requires s.lists.calls[c].list < |s.lists.m.abs| && Place(s.lists, c) < 2 + |s.lists.m.abs[s.lists.calls[c].list]|
    ensures Alive(s, c)
    decreases 2 + |s.lists.m.abs[s.lists.calls[c].list]| - Place(s.lists, c)
  {
    var ls := s.lists;
    var call := ls.calls[c];
    assert L.CallOk(ls.m, call);
    if call.kind == L.Peek && call.pc == L.Locked {
      PeekAlive(s, c);
    } else if Wants(ls.m, call).None? || L.Free(ls, Wants(ls.m, call).value) {
      var e := GoesOn(ls, c);
      assert Enabled(s, ListStep(c, e));
      Stays(s, c);
    } else {
      var u :| u in ls.calls && L.Holds(ls.calls[u], Wants(ls.m, call).value);
      Ahead(ls, c, u);
      PlaceBound(ls, u);
      CallAlive(s, u);
      Follows(s, c, u);
    }
  }

  lemma PlaceBound(s: L.State, u: nat)
    requires L.Inv(s) && u in s.calls
    ensures s.calls[u].list < |s.m.abs| && Place(s, u) < 2 + |s.m.abs[s.calls[u].list]|
  {
    assert L.CallOk(s.m, s.calls[u]);
  }

  lemma AllAlive(s: State, c: nat)
    requires Inv(s) && BehindsOk(s.lists) && c < NCPU && !Clashes(s)
    ensures Alive(s, c)
  {
    if Busy(s, c) {
      PlaceBound(s.lists, c);
      CallAlive(s, c);
    } else {
      FreeCpu(s, c);
      Stays(s, c);
    }
  }

  // ---- and such a pair is stuck

  /** What the invariant adds. */
  lemma ClashFacts(s: State, c: nat, d: nat)
    requires Inv(s) && Clash(s, c, d)
    ensures c != d && s.cpus[c].np < NPROC && s.lock[s.cpus[c].np] == Some(d)
    ensures CallOf(s.lists, c) == Some(L.Call(L.Peek, UNUSED_LIST, 0, L.Locked))
    ensures CallOf(s.lists, d) == Some(L.Call(L.Remove, UNUSED_LIST, s.cpus[c].np, L.Want))
  {
    assert CpuOk(s, c) && CpuOk(s, d);
  }

  lemma ClashStuck(s: State, c: nat, d: nat)
    requires Inv(s) && Clash(s, c, d)
    ensures !CanStep(s, c) && !CanStep(s, d)
    ensures forall x :: WaitsFor(s, c, x) ==> x == d
    ensures forall x :: WaitsFor(s, d, x) ==> x == c
  {
    ClashFacts(s, c, d);
    assert L.Holds(s.lists.calls[c], L.ListLock(UNUSED_LIST));
    forall e: Event | e.c == c ensures !Enabled(s, e) { PickerStuck(s, c, d, e); }
    forall e: Event | e.c == d ensures !Enabled(s, e) { TakerStuck(s, c, d, e); }
  }

  lemma PickerStuck(s: State, c: nat, d: nat, e: Event)
    requires Inv(s) && Clash(s, c, d) && e.c == c
    ensures !Enabled(s, e)
  {
    ClashFacts(s, c, d);
  }

  lemma TakerStuck(s: State, c: nat, d: nat, e: Event)
    requires Inv(s) && Clash(s, c, d) && e.c == d
    ensures !Enabled(s, e)
  {
    ClashFacts(s, c, d);
    assert L.Holds(s.lists.calls[c], L.ListLock(UNUSED_LIST));
  }

  lemma {:induction false} Confined(s: State, c: nat, d: nat, path: seq<nat>, i: nat)
    requires Shape(s) && Path(s, c, path) && i < |path|
    requires (forall x :: WaitsFor(s, c, x) ==> x == d) && (forall x :: WaitsFor(s, d, x) ==> x == c)
    ensures path[i] == c || path[i] == d
  {
    if i > 0 {
      Confined(s, c, d, path, i - 1);
      assert WaitsFor(s, path[i - 1], path[i - 1 + 1]);
    }
  }

  lemma NotAlive(s: State, c: nat, d: nat)
    requires Inv(s) && Clash(s, c, d)
    ensures !Alive(s, c)
  {
    ClashStuck(s, c, d);
    forall path | Path(s, c, path) ensures !CanStep(s, path[|path| - 1]) {
      Confined(s, c, d, path, |path| - 1);
    }
  }

  // ---- runs

  lemma StepBehind(s: State, e: Event)
    requires Inv(s) && BehindsOk(s.lists) && Enabled(s, e)
    ensures BehindsOk(Apply(s, e).lists)
  {
    if e.ListStep? {
      ListBehind(s.lists, e.e);
    } else {
      StartBehind(s, e);
    }
  }

  lemma StartBehind(s: State, e: Event)
    requires Inv(s) && BehindsOk(s.lists) && Enabled(s, e) && !e.ListStep?
    ensures BehindsOk(Apply(s, e).lists)
  {
    StartCalls(s, e);
    var ls' := Apply(s, e).lists;
    forall t | t in ls'.calls ensures BehindOk(ls'.m, ls'.calls[t]) {
      if t in s.lists.calls { assert BehindOk(s.lists.m, s.lists.calls[t]); }
    }
  }

  /** Other steps start list calls or end peeks. */
  lemma StartCalls(s: State, e: Event)
    requires Shape(s) && Enabled(s, e) && !e.ListStep?
    ensures var ls, ls' := s.lists, Apply(s, e).lists;
      && ls'.m == ls.m
      && forall t :: t in ls'.calls ==> ls'.calls[t].pc == L.Want || (t in ls.calls && ls'.calls[t] == ls.calls[t])
  {
  }

  lemma {:induction false} RunBehind(states: seq<State>, events: seq<Event>, i: nat)
    requires Run(states, events) && i <= |events|
    ensures BehindsOk(states[i].lists)
  {
    if i > 0 {
      RunBehind(states, events, i - 1);
      NextBehind(states, events, i - 1);
    }
  }

  lemma NextBehind(states: seq<State>, events: seq<Event>, i: nat)
    requires Run(states, events) && i < |events| && BehindsOk(states[i].lists)
    ensures BehindsOk(states[i + 1].lists)
  {
    RunKeeps(states, events, i);
    StepBehind(states[i], events[i]);
  }

  /** In every state of every run: every CPU can go on or waits, through finitely many others, for one that can, if and
      only if no two CPUs clash in allocproc. */
  lemma AliveExactly(states: seq<State>, events: seq<Event>, i: nat)
    requires Run(states, events) && i <= |events|
    ensures Shape(states[i])
    ensures (forall c :: 0 <= c < NCPU ==> Alive(states[i], c)) <==> !Clashes(states[i])
  {
    RunKeeps(states, events, i);
    RunBehind(states, events, i);
    var s := states[i];
    if Clashes(s) {
      var c, d :| Clash(s, c, d);
      NotAlive(s, c, d);
    } else {
      forall c | 0 <= c < NCPU ensures Alive(s, c) { AllAlive(s, c); }
    }
  }

  /** allocproc finds first on the unused list a process that another call of it has already chosen, and not yet taken
      off. */
  ghost predicate Grabs(s: State, e: Event) {
    && Shape(s) && e.AllocPick? && UNUSED_LIST < |s.lists.m.first|
    && exists d :: 0 <= d < NCPU && s.cpus[d].Alloc? && s.cpus[d].np == s.lists.m.first[UNUSED_LIST]
  }

  /** A step makes two CPUs clash if and only if it is such a one. */
  lemma ClashStep(s: State, e: Event)
    requires Inv(s) && Enabled(s, e) && !Clashes(s) && Shape(Apply(s, e))
    ensures Clashes(Apply(s, e)) <==> Grabs(s, e)
  {
    var s' := Apply(s, e);
    if e.AllocPick? {
      PickClash(s, e.c);
    } else {
      forall c, d | Clash(s', c, d) ensures false { NoClash(s, e, c, d); }
    }
  }

  lemma PickClash(s: State, c: nat)
    requires Inv(s) && Enabled(s, AllocPick(c)) && !Clashes(s) && Shape(Apply(s, AllocPick(c)))
    ensures Clashes(Apply(s, AllocPick(c))) <==> Grabs(s, AllocPick(c))
  {
    var s' := Apply(s, AllocPick(c));
    assert CpuOk(s, c);
    var p: nat :| Peeked(s, c, UNUSED_LIST, p);
    if Grabs(s, AllocPick(c)) {
      var d :| 0 <= d < NCPU && s.cpus[d].Alloc? && s.cpus[d].np == p;
      assert CpuOk(s, d);
      L.FirstIsHead(s.lists, c);
      AllocWants(s, c, p, d);
      assert Clash(s', c, d);
    }
    forall c', d | Clash(s', c', d) ensures Grabs(s, AllocPick(c)) {
      if c' != c { assert Clash(s, c', d); }
    }
  }

  /** A step of one CPU leaves the others where they are. */
  lemma Untouched(s: State, e: Event, c: nat)
    requires Shape(s) && Enabled(s, e) && c < NCPU && e.c != c
    ensures |Apply(s, e).cpus| == NCPU && Apply(s, e).cpus[c] == s.cpus[c]
    ensures CallOf(Apply(s, e).lists, c) == CallOf(s.lists, c)
  {
    OtherCpu(s, e, c);
    OtherCall(s, e, c);
  }

  lemma OtherCpu(s: State, e: Event, c: nat)
    requires Shape(s) && Enabled(s, e) && c < NCPU && e.c != c
    ensures |Apply(s, e).cpus| == NCPU && Apply(s, e).cpus[c] == s.cpus[c]
  {
  }

  lemma OtherCall(s: State, e: Event, c: nat)
    requires Shape(s) && Enabled(s, e) && e.c != c
    ensures CallOf(Apply(s, e).lists, c) == CallOf(s.lists, c)
  {
    if !e.ListStep? { StartCall(s, e, c); }
  }

  lemma StartCall(s: State, e: Event, c: nat)
    requires Shape(s) && Enabled(s, e) && e.c != c && !e.ListStep?
    ensures CallOf(Apply(s, e).lists, c) == CallOf(s.lists, c)
  {
  }

  /** How a CPU gets to these two places. */
  lemma Arrives(s: State, e: Event)
    requires Shape(s) && Enabled(s, e) && !e.ListStep?
    ensures |Apply(s, e).cpus| == NCPU
    ensures Apply(s, e).cpus[e.c].AllocPicked? ==> e.AllocPick?
    ensures Apply(s, e).cpus[e.c].Alloc? ==>
              e.AllocLock? && s.cpus[e.c].AllocPicked? && Apply(s, e).cpus[e.c].np == s.cpus[e.c].np
  {
  }

  lemma NoClash(s: State, e: Event, c: nat, d: nat)
    requires Inv(s) && Enabled(s, e) && !e.AllocPick? && Shape(Apply(s, e)) && Clash(Apply(s, e), c, d)
    ensures Clash(s, c, d)
  {
    if e.ListStep? {
      ListNoClash(s, e, c, d);
    } else {
      Arrives(s, e);
      Untouched(s, e, c);
      if e.c == d {
        BothPicked(s, c, d);
      } else {
        Untouched(s, e, d);
      }
    }
  }

  lemma ListNoClash(s: State, e: Event, c: nat, d: nat)
    requires Inv(s) && Enabled(s, e) && e.ListStep? && Shape(Apply(s, e)) && Clash(Apply(s, e), c, d)
    ensures Clash(s, c, d)
  {
    assert Apply(s, e).cpus == s.cpus;
    assert e.c == d ==> d in s.lists.calls;
  }

  /** Two CPUs do not have the list lock at once. */
  lemma BothPicked(s: State, c: nat, d: nat)
    requires Inv(s) && c < NCPU && d < NCPU && c != d
    ensures !(s.cpus[c].AllocPicked? && s.cpus[d].AllocPicked?)
  {
    assert CpuOk(s, c) && CpuOk(s, d);
    assert L.Exclusive(s.lists.calls);
    assert s.cpus[c].AllocPicked? ==> c in s.lists.calls && L.Holds(s.lists.calls[c], L.ListLock(UNUSED_LIST));
    assert s.cpus[d].AllocPicked? ==> d in s.lists.calls && L.Holds(s.lists.calls[d], L.ListLock(UNUSED_LIST));
  }

  /** Over every run: nobody gets stuck up to step n if and only if no call of allocproc reads the unused list between
      another's choice of its first process and the removal of it. */
  lemma DeadlocksExactly(states: seq<State>, events: seq<Event>, n: nat)
    requires Run(states, events) && n <= |events|
    ensures (forall i {:trigger Clashes(states[i])} :: 0 <= i <= n ==> !Clashes(states[i])) <==>
            (forall i {:trigger Grabs(states[i], events[i])} :: 0 <= i < n ==> !Grabs(states[i], events[i]))
  {
    ghost var bad := seq(n + 1, i requires 0 <= i <= n => Clashes(states[i]));
    ghost var why := seq(n, i requires 0 <= i < n => Grabs(states[i], events[i]));
    BootAlive(states[0]);
    forall i | 0 <= i < n ensures !bad[i] ==> (bad[i + 1] <==> why[i]) { NextClash(states, events, i); }
    Until(bad, why, n);
    assert forall i :: 0 <= i <= n ==> bad[i] == Clashes(states[i]);
    assert forall i :: 0 <= i < n ==> why[i] == Grabs(states[i], events[i]);
  }

  lemma {:induction false} Until(bad: seq<bool>, why: seq<bool>, n: nat)
    requires n < |bad| && n <= |why| && !bad[0]
    requires forall i :: 0 <= i < n ==> !bad[i] ==> (bad[i + 1] <==> why[i])
    ensures (forall i :: 0 <= i <= n ==> !bad[i]) <==> (forall i :: 0 <= i < n ==> !why[i])
  {
    if n > 0 {
      Until(bad, why, n - 1);
      assert !bad[n - 1] ==> (bad[n - 1 + 1] <==> why[n - 1]);
    }
  }

  lemma BootAlive(s: State)
    requires Init(s)
    ensures !Clashes(s)
  {
  }

  lemma NextClash(states: seq<State>, events: seq<Event>, i: nat)
    requires Run(states, events) && i < |events|
    ensures !Clashes(states[i]) ==> (Clashes(states[i + 1]) <==> Grabs(states[i], events[i]))
  {
    RunKeeps(states, events, i);
    StepKeeps(states[i], events[i]);
    if !Clashes(states[i]) { ClashStep(states[i], events[i]); }
  }

  /** It is for good: they stay as they are, whatever the others do. */
  lemma ClashStays(s: State, e: Event, c: nat, d: nat)
    requires Inv(s) && Enabled(s, e) && Clash(s, c, d) && Shape(Apply(s, e))
    ensures Clash(Apply(s, e), c, d)
  {
    ClashStuck(s, c, d);
    Untouched(s, e, c);
    Untouched(s, e, d);
  }

  /** allocproc reads the unused list or takes a process from it. */
  predicate Allocates(e: Event) {
    e.AllocPick? || e.AllocNone? || e.AllocLock?
  }

  /** And nobody gets to the unused list again. */
  lemma UnusedShut(s: State, e: Event, c: nat, d: nat)
    requires Inv(s) && Enabled(s, e) && Clash(s, c, d)
    ensures !Allocates(e)
  {
    ClashFacts(s, c, d);
    ClashStuck(s, c, d);
    BothPicked(s, c, e.c);
    assert L.Holds(s.lists.calls[c], L.ListLock(UNUSED_LIST));
  }

  lemma StuckForever(states: seq<State>, events: seq<Event>, i: nat, j: nat, c: nat, d: nat)
    requires Run(states, events) && i <= j <= |events| && Stuck(states[i], c, d)
    ensures Stuck(states[j], c, d)
  {
    ghost var n := |events|;
    ghost var stuck := seq(n + 1, k requires 0 <= k <= n => Stuck(states[k], c, d));
    forall k | 0 <= k < n && stuck[k] ensures stuck[k + 1] { NextStuck(states, events, k, c, d); }
    Remains(stuck, i, j);
    assert stuck[j] == Stuck(states[j], c, d);
  }

  lemma {:induction false} Remains(p: seq<bool>, i: nat, j: nat)
    requires i <= j < |p| && p[i] && forall k :: 0 <= k < |p| - 1 && p[k] ==> p[k + 1]
    ensures p[j]
    decreases j
  {
    if i < j {
      Remains(p, i, j - 1);
      assert p[j - 1] ==> p[j - 1 + 1];
    }
  }

  /** From then on nobody allocates a process. */
  lemma ShutForever(states: seq<State>, events: seq<Event>, i: nat, j: nat, c: nat, d: nat)
    requires Run(states, events) && i <= j < |events| && Stuck(states[i], c, d)
    ensures !Allocates(events[j])
  {
    StuckForever(states, events, i, j, c, d);
    NextShut(states, events, j, c, d);
  }

  ghost predicate Stuck(s: State, c: nat, d: nat) {
    Shape(s) && Clash(s, c, d)
  }

  lemma NextStuck(states: seq<State>, events: seq<Event>, i: nat, c: nat, d: nat)
    requires Run(states, events) && i < |events| && Stuck(states[i], c, d)
    ensures Stuck(states[i + 1], c, d)
  {
    RunKeeps(states, events, i);
    StepKeeps(states[i], events[i]);
    ClashStays(states[i], events[i], c, d);
  }

  lemma NextShut(states: seq<State>, events: seq<Event>, i: nat, c: nat, d: nat)
    requires Run(states, events) && i < |events| && Stuck(states[i], c, d)
    ensures !Allocates(events[i])
  {
    RunKeeps(states, events, i);
    UnusedShut(states[i], events[i], c, d);
  }
}
