/** References and inodes of kernel/fs.c, told by the events of a run: who refers to what, who has it locked, and what
    is on disk. */
module InodeHistory {
  import opened Params
  import opened InodeTable

  // ---- references

  /** The inode a step makes k a reference to. */
  function Names(s: State, e: Event, k: nat): Option<nat> {
    match e
    case Lookup(x, inum, _) => if x == k then Some(inum) else None
    case IallocGet(t, x, _) => if x == k && t in s.allocs then Some(s.allocs[t]) else None
    case Idup(x, y) => if y == k && Has(s, x) then Some(EntryOf(s, x).inum) else None
    case _ => None
  }

  /** What k refers to after i steps: the inode it was got for, until iput. */
  ghost function RefersTo(states: seq<State>, events: seq<Event>, i: nat, k: nat): Option<nat>
    requires |states| == |events| + 1 && i <= |events|
  {
    if i == 0 then None
    else if Names(states[i - 1], events[i - 1], k).Some? then Names(states[i - 1], events[i - 1], k)
    else if events[i - 1] == IputDrop(k) then None
    else RefersTo(states, events, i - 1, k)
  }

  function Target(s: State, k: nat): Option<nat> {
    if Has(s, k) then Some(EntryOf(s, k).inum) else None
  }

  lemma GetTarget(s: State, e: Event, k: nat)
    requires Inv(s) && Enabled(s, e) && (e.Lookup? || e.IallocGet?)
    ensures Target(Apply(s, e), k) == if Names(s, e, k).Some? then Names(s, e, k) else Target(s, k)
  {
    if k in s.tokens { assert TokenOk(s, k) && EntryOk(s, s.tokens[k].e) && k in On(s.tokens, s.tokens[k].e); }
  }

  lemma StepTarget(s: State, e: Event, k: nat)
    requires Inv(s) && Enabled(s, e)
    ensures Target(Apply(s, e), k) ==
            if Names(s, e, k).Some? then Names(s, e, k) else if e == IputDrop(k) then None else Target(s, k)
  {
    if e.Lookup? || e.IallocGet? { GetTarget(s, e, k); }
  }

  lemma {:induction false} RefersExactly(states: seq<State>, events: seq<Event>, i: nat, k: nat)
    requires Run(states, events) && i <= |events|
    ensures k in states[i].tokens <==> RefersTo(states, events, i, k).Some?
    ensures Target(states[i], k) == RefersTo(states, events, i, k)
  {
    HasToken(states, events, i, k);
    if i > 0 {
      RefersExactly(states, events, i - 1, k);
      NextTarget(states, events, i - 1, k);
    }
  }

  lemma HasToken(states: seq<State>, events: seq<Event>, i: nat, k: nat)
    requires Run(states, events) && i <= |events|
    ensures k in states[i].tokens <==> Has(states[i], k)
  {
    RunKeeps(states, events, i);
    if k in states[i].tokens { assert TokenOk(states[i], k); }
  }

  lemma NextTarget(states: seq<State>, events: seq<Event>, i: nat, k: nat)
    requires Run(states, events) && i < |events|
    ensures var s, e := states[i], events[i];
            Target(states[i + 1], k) ==
            if Names(s, e, k).Some? then Names(s, e, k) else if e == IputDrop(k) then None else Target(s, k)
  {
    assert Step(states, events, i);
    RunKeeps(states, events, i);
    StepTarget(states[i], events[i], k);
  }

  // ---- the sleep lock

  /** k has the lock of its inode: from ilock, or iput's decision to free, to iunlock or the end of the freeing. */
  function Locks(events: seq<Event>, i: nat, k: nat): bool
    requires i <= |events|
  {
    if i == 0 then false
    else if events[i - 1] == Lock(k) || events[i - 1] == IputFree(k) then true
    else if events[i - 1] == Unlock(k) || events[i - 1] == Invalidate(k) then false
    else Locks(events, i - 1, k)
  }

  predicate Holds(s: State, k: nat) {
    Has(s, k) && EntryOf(s, k).holder == Some(k)
  }

  lemma StepHolds(s: State, e: Event, k: nat)
    requires Inv(s) && Enabled(s, e)
    ensures Holds(Apply(s, e), k) <==>
            e == Lock(k) || e == IputFree(k) || (Holds(s, k) && e != Unlock(k) && e != Invalidate(k))
  {
    if k in s.tokens { assert TokenOk(s, k) && EntryOk(s, s.tokens[k].e) && k in On(s.tokens, s.tokens[k].e); }
    if e.Lookup? || e.IallocGet? {
      GetHolds(s, e, k);
    } else if e.Idup? {
      assert EntryOk(s, s.tokens[e.k].e);
    } else if !e.Ialloc? {
      assert TokenOk(s, e.k);
    }
  }

  lemma GetHolds(s: State, e: Event, k: nat)
    requires Inv(s) && Enabled(s, e) && (e.Lookup? || e.IallocGet?)
    ensures Holds(Apply(s, e), k) <==> Holds(s, k)
  {
    assert EntryOk(s, e.e);
    if k in s.tokens { assert TokenOk(s, k) && EntryOk(s, s.tokens[k].e) && k in On(s.tokens, s.tokens[k].e); }
  }

  lemma {:induction false} LocksExactly(states: seq<State>, events: seq<Event>, i: nat, k: nat)
    requires Run(states, events) && i <= |events|
    ensures Holds(states[i], k) <==> Locks(events, i, k)
  {
    if i > 0 {
      LocksExactly(states, events, i - 1, k);
      assert Step(states, events, i - 1);
      RunKeeps(states, events, i - 1);
      StepHolds(states[i - 1], events[i - 1], k);
    }
  }

  // ---- the inode on disk

  /** What a step stores in inode inum: ialloc a cleared inode of its type, iupdate what its holder wants, iput a freed
      one. */
  function Stores(s: State, e: Event, inum: nat, was: Dinode): Option<Dinode> {
    match e
    case Ialloc(_, n, typ) => if n == inum then Some(Dinode(typ, 0, 0)) else None
    case Update(k, d) => if Target(s, k) == Some(inum) then Some(d) else None
    case Zero(k, data) => if Target(s, k) == Some(inum) then Some(Dinode(0, was.nlink, data)) else None
    case _ => None
  }

  ghost function LastStored(states: seq<State>, events: seq<Event>, i: nat, inum: nat): Dinode
    requires |states| == |events| + 1 && i <= |events| && inum < |states[0].disk|
  {
    if i == 0 then states[0].disk[inum]
    else
      var was := LastStored(states, events, i - 1, inum);
      var now := Stores(states[i - 1], events[i - 1], inum, was);
      if now.Some? then now.value else was
  }

  lemma StepStores(s: State, e: Event, inum: nat)
    requires Inv(s) && Enabled(s, e) && inum < |s.disk|
    ensures |Apply(s, e).disk| == |s.disk|
    ensures var now := Stores(s, e, inum, s.disk[inum]);
            Apply(s, e).disk[inum] == if now.Some? then now.value else s.disk[inum]
  {
    if e.Zero? { assert TokenOk(s, e.k); }
  }

  lemma {:induction false} StoredExactly(states: seq<State>, events: seq<Event>, i: nat, inum: nat)
    requires Run(states, events) && i <= |events| && inum < |states[0].disk|
    ensures |states[i].disk| == |states[0].disk| && states[i].disk[inum] == LastStored(states, events, i, inum)
  {
    if i > 0 {
      StoredExactly(states, events, i - 1, inum);
      assert Step(states, events, i - 1);
      RunKeeps(states, events, i - 1);
      StepStores(states[i - 1], events[i - 1], inum);
    }
  }

  /** Whoever has an inode locked and loaded has what was last stored in it. */
  lemma SeesLastStored(states: seq<State>, events: seq<Event>, i: nat, k: nat)
    requires Run(states, events) && i <= |events| && Locks(events, i, k)
    requires Has(states[i], k) && states[i].tokens[k].phase == Held && EntryOf(states[i], k).valid
    ensures EntryOf(states[i], k).inum < |states[0].disk|
    ensures EntryOf(states[i], k).mem == LastStored(states, events, i, EntryOf(states[i], k).inum)
  {
    LocksExactly(states, events, i, k);
    NeverStale(states, events, i, k);
    if |states[0].disk| > 0 { StoredExactly(states, events, i, 0); }
    DiskSize(states, events, i);
    StoredExactly(states, events, i, EntryOf(states[i], k).inum);
  }

  lemma {:induction false} DiskSize(states: seq<State>, events: seq<Event>, i: nat)
    requires Run(states, events) && i <= |events|
    ensures |states[i].disk| == |states[0].disk|
  {
    if i > 0 {
      DiskSize(states, events, i - 1);
      assert Step(states, events, i - 1);
    }
  }

  // ---- iput

  /** Where the iput of k is, by its events. */
  function Freeing(events: seq<Event>, i: nat, k: nat): Phase
    requires i <= |events|
  {
    if i == 0 then Held
    else
      match events[i - 1]
      case IputFree(x) => if x == k then Truncating else Freeing(events, i - 1, k)
      case Zero(x, _) => if x == k then Zeroed else Freeing(events, i - 1, k)
      case Invalidate(x) => if x == k then Dropping else Freeing(events, i - 1, k)
      case IputDrop(x) => if x == k then Held else Freeing(events, i - 1, k)
      case _ => Freeing(events, i - 1, k)
  }

  lemma StepPhase(s: State, e: Event, k: nat)
    requires Inv(s) && Enabled(s, e) && k in Apply(s, e).tokens
    ensures e == IputFree(k) ==> Apply(s, e).tokens[k].phase == Truncating
    ensures e.Zero? && e.k == k ==> Apply(s, e).tokens[k].phase == Zeroed
    ensures e == Invalidate(k) ==> Apply(s, e).tokens[k].phase == Dropping
    ensures k !in s.tokens ==> Apply(s, e).tokens[k].phase == Held
    ensures k in s.tokens && !(e == IputFree(k) || (e.Zero? && e.k == k) || e == Invalidate(k)) ==>
              Apply(s, e).tokens[k].phase == s.tokens[k].phase
  {
    if k in s.tokens { assert TokenOk(s, k); }
  }

  lemma {:induction false} PhaseExactly(states: seq<State>, events: seq<Event>, i: nat, k: nat)
    requires Run(states, events) && i <= |events|
    ensures k in states[i].tokens ==> states[i].tokens[k].phase == Freeing(events, i, k)
    ensures k !in states[i].tokens ==> Freeing(events, i, k) == Held
  {
    if i > 0 {
      PhaseExactly(states, events, i - 1, k);
      assert Step(states, events, i - 1);
      RunKeeps(states, events, i - 1);
      if k in states[i].tokens { StepPhase(states[i - 1], events[i - 1], k); }
    }
  }

  /** An iput that has found the last reference to an unlinked inode gives it up only after it has freed the inode on
      disk. */
  lemma FreesBeforeDrop(states: seq<State>, events: seq<Event>, i: nat, j: nat, k: nat) returns (h: nat)
    requires Run(states, events) && i < j < |events| && events[i] == IputFree(k) && events[j] == IputDrop(k)
    ensures i < h < j && events[h].Zero? && events[h].k == k && Has(states[h], k)
    ensures var inum := EntryOf(states[h], k).inum;
            |states[h + 1].disk| == |states[h].disk| && states[h + 1].disk[inum].typ == 0
  {
    assert Step(states, events, j);
    PhaseExactly(states, events, j, k);
    h := FindZero(states, events, i, j, k);
    assert Step(states, events, h);
  }

  /** The drop finds the reference past its freeing, so a Zero lies in between. */
  lemma {:induction false} FindZero(states: seq<State>, events: seq<Event>, i: nat, j: nat, k: nat) returns (h: nat)
    requires Run(states, events) && i < j <= |events| && events[i] == IputFree(k)
    requires Freeing(events, j, k) != Truncating
    ensures i < h < j && events[h].Zero? && events[h].k == k
    decreases j
  {
    PhaseExactly(states, events, j - 1, k);
    assert Step(states, events, j - 1);
    if events[j - 1].Zero? && events[j - 1].k == k {
      h := j - 1;
    } else {
      h := FindZero(states, events, i, j - 1, k);
    }
  }
}
