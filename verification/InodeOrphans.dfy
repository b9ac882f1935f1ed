/** Inodes that nobody can reach and nobody will free: iput frees an unlinked inode only on its last reference, and a
    reference that another thread is still giving up counts as one (kernel/fs.c). */
module InodeOrphans {
  import opened Params
  import opened InodeTable

  /** Reference k will free the inode, or let whoever is last free it. */
  predicate Live(s: State, k: nat, inum: nat) {
    Has(s, k) && EntryOf(s, k).inum == inum && (s.tokens[k].phase == Held || s.tokens[k].phase == Truncating)
  }

  /** Allocated on disk and unlinked, not being given out by ialloc, and with no reference that could free it. */
  ghost predicate Orphan(s: State, inum: nat) {
    && inum < |s.disk| && s.disk[inum].typ != 0 && s.disk[inum].nlink == 0
    && (forall t :: t in s.allocs ==> s.allocs[t] != inum)
    && (forall k :: k in s.tokens ==> !Live(s, k, inum))
  }

  /** iput of the only live reference to an unlinked inode, when its entry counts another reference or was never
      loaded. */
  ghost predicate Strands(s: State, e: Event, inum: nat) {
    && e.IputDrop? && Has(s, e.k) && s.tokens[e.k].phase == Held && EntryOf(s, e.k).inum == inum
    && s.disk[inum].nlink == 0
    && (forall k :: k in s.tokens && k != e.k ==> !Live(s, k, inum))
    && (EntryOf(s, e.k).ref > 1 || !EntryOf(s, e.k).valid)
  }

  // ---- exactly which steps make an orphan

  /** A step that keeps the inode on disk, its allocation and its live references leaves no new orphan. */
  lemma NoOrphan(s: State, s': State, inum: nat)
    requires !Orphan(s, inum)
    requires |s'.disk| == |s.disk| && (inum < |s.disk| ==> s'.disk[inum] == s.disk[inum])
    requires forall t :: t in s.allocs && s.allocs[t] == inum ==> t in s'.allocs && s'.allocs[t] == inum
    requires forall k :: k in s.tokens && Live(s, k, inum) ==> k in s'.tokens && Live(s', k, inum)
    ensures !Orphan(s', inum)
  {
  }

  /** While a live reference to it exists after the step, an inode is no orphan. */
  lemma StillLive(s: State, k: nat, inum: nat)
    requires k in s.tokens && Live(s, k, inum)
    ensures !Orphan(s, inum)
  {
  }

  lemma DropOrphan(s: State, k: nat, inum: nat)
    requires Inv(s) && Enabled(s, IputDrop(k)) && !Orphan(s, inum)
    ensures Orphan(Apply(s, IputDrop(k)), inum) <==> Strands(s, IputDrop(k), inum)
  {
    var s' := Apply(s, IputDrop(k));
    var e := IputDrop(k);
    assert TokenOk(s, k) && EntryOk(s, s.tokens[k].e);
    forall u | u in s.tokens && u != k
      ensures u in s'.tokens && (Live(s', u, inum) <==> Live(s, u, inum)) { assert TokenOk(s, u); }
    if s.tokens[k].phase == Held && EntryOf(s, k).inum == inum {
      HeldDrop(s, s', k, inum);
    } else {
      NoOrphan(s, s', inum);
    }
  }

  /** Dropping a live reference: an orphan is left when it was the only one and the inode has no link. */
  lemma HeldDrop(s: State, s': State, k: nat, inum: nat)
    requires Inv(s) && Enabled(s, IputDrop(k)) && s' == Apply(s, IputDrop(k))
    requires s.tokens[k].phase == Held && EntryOf(s, k).inum == inum
    requires forall u :: u in s.tokens && u != k ==> u in s'.tokens && (Live(s', u, inum) <==> Live(s, u, inum))
    ensures Orphan(s', inum) <==> Strands(s, IputDrop(k), inum)
  {
    assert TokenOk(s, k) && EntryOk(s, s.tokens[k].e) && k in On(s.tokens, s.tokens[k].e);
    assert forall t :: t in s.allocs ==> AllocOk(s, t);
    if s.disk[inum].nlink == 0 { ValidSeesDisk(s, k); }
  }

  /** An unlinked inode whose entry is loaded and counts one reference would have been freed instead. */
  lemma ValidSeesDisk(s: State, k: nat)
    requires Inv(s) && Enabled(s, IputDrop(k)) && s.tokens[k].phase == Held && s.disk[EntryOf(s, k).inum].nlink == 0
    ensures EntryOf(s, k).ref > 1 || !EntryOf(s, k).valid
  {
    var n := EntryOf(s, k);
    assert EntryOk(s, s.tokens[k].e) && k in On(s.tokens, s.tokens[k].e);
    if n.ref == 1 && n.valid { SingleOn(s.tokens, s.tokens[k].e, k); }
  }

  lemma StepOrphan(s: State, e: Event, inum: nat)
    requires Inv(s) && Enabled(s, e) && !Orphan(s, inum)
    ensures Orphan(Apply(s, e), inum) <==> Strands(s, e, inum)
  {
    var s' := Apply(s, e);
    match e
    case IputDrop(k) => DropOrphan(s, k, inum);
    case Zero(k, data) => ZeroOrphan(s, k, data, inum);
    case Update(k, d) => UpdateOrphan(s, k, d, inum);
    case IallocGet(t, k, i) => AllocGetOrphan(s, t, k, i, inum);
    case Ialloc(t, i, typ) => AllocOrphan(s, t, i, typ, inum);
    case _ => OtherOrphan(s, e, inum);
  }

  lemma ZeroOrphan(s: State, k: nat, data: int, inum: nat)
    requires Inv(s) && Enabled(s, Zero(k, data)) && !Orphan(s, inum)
    ensures !Orphan(Apply(s, Zero(k, data)), inum)
  {
    var s' := Apply(s, Zero(k, data));
    if EntryOf(s, k).inum != inum { NoOrphan(s, s', inum); }
  }

  lemma UpdateOrphan(s: State, k: nat, d: Dinode, inum: nat)
    requires Inv(s) && Enabled(s, Update(k, d)) && !Orphan(s, inum)
    ensures !Orphan(Apply(s, Update(k, d)), inum)
  {
    var s' := Apply(s, Update(k, d));
    if EntryOf(s, k).inum == inum { StillLive(s', k, inum); } else { NoOrphan(s, s', inum); }
  }

  lemma AllocOrphan(s: State, t: nat, i: nat, typ: nat, inum: nat)
    requires Inv(s) && Enabled(s, Ialloc(t, i, typ)) && !Orphan(s, inum)
    ensures !Orphan(Apply(s, Ialloc(t, i, typ)), inum)
  {
    var s' := Apply(s, Ialloc(t, i, typ));
    if i == inum {
      assert t in s'.allocs && s'.allocs[t] == inum;
    } else {
      NoOrphan(s, s', inum);
    }
  }

  lemma AllocGetOrphan(s: State, t: nat, k: nat, i: nat, inum: nat)
    requires Inv(s) && Enabled(s, IallocGet(t, k, i)) && !Orphan(s, inum)
    ensures !Orphan(Apply(s, IallocGet(t, k, i)), inum)
  {
    var s' := Apply(s, IallocGet(t, k, i));
    if s.allocs[t] == inum {
      StillLive(s', k, inum);
    } else {
      GetLive(s, k, s.allocs[t], i, inum);
      forall u | u in s.tokens && Live(s, u, inum) ensures u in s'.tokens && Live(s', u, inum) {
        assert Live(DoGet(s, k, s.allocs[t], i), u, inum);
      }
      NoOrphan(s, s', inum);
    }
  }

  /** Taking a reference keeps the live references there are. */
  lemma GetLive(s: State, k: nat, got: nat, i: nat, inum: nat)
    requires Inv(s) && CanGet(s, k, got, i)
    ensures forall u :: u in s.tokens ==> (Live(DoGet(s, k, got, i), u, inum) <==> Live(s, u, inum))
  {
    forall u | u in s.tokens ensures Live(DoGet(s, k, got, i), u, inum) <==> Live(s, u, inum) {
      assert TokenOk(s, u) && EntryOk(s, s.tokens[u].e) && u in On(s.tokens, s.tokens[u].e);
    }
  }

  lemma OtherOrphan(s: State, e: Event, inum: nat)
    requires Inv(s) && Enabled(s, e) && !Orphan(s, inum)
    requires e.Lookup? || e.Idup? || e.Lock? || e.Load? || e.Unlock? || e.IputFree? || e.Invalidate?
    ensures !Orphan(Apply(s, e), inum)
  {
    if e.Lookup? {
      GetLive(s, e.k, e.inum, e.e, inum);
    } else if e.Idup? {
      IdupLive(s, e.k, e.k', inum);
    } else {
      LocalLive(s, e, inum);
    }
    NoOrphan(s, Apply(s, e), inum);
  }

  lemma IdupLive(s: State, k: nat, k': nat, inum: nat)
    requires Inv(s) && Enabled(s, Idup(k, k'))
    ensures forall u :: u in s.tokens && Live(s, u, inum) ==> Live(Apply(s, Idup(k, k')), u, inum)
  {
  }

  /** Locking, loading, unlocking and the beginning and end of iput's freeing keep a live reference live. */
  lemma LocalLive(s: State, e: Event, inum: nat)
    requires Inv(s) && Enabled(s, e) && (e.Lock? || e.Load? || e.Unlock? || e.IputFree? || e.Invalidate?)
    ensures forall u :: u in s.tokens && Live(s, u, inum) ==> u in Apply(s, e).tokens && Live(Apply(s, e), u, inum)
  {
  }

  // ---- over runs

  /** Nobody ever frees an orphan, or uses it again. */
  lemma OrphanStays(s: State, e: Event, inum: nat)
    requires Inv(s) && Enabled(s, e) && Orphan(s, inum)
    ensures Orphan(Apply(s, e), inum)
  {
    match e
    case IallocGet(t, k, i) => GetOrphan(s, k, s.allocs[t], i, inum);
    case Lookup(k, i, n) => GetOrphan(s, k, i, n, inum);
    case Lock(_) => EntryOrphan(s, e, inum);
    case Load(_) => EntryOrphan(s, e, inum);
    case Unlock(_) => EntryOrphan(s, e, inum);
    case Invalidate(_) => EntryOrphan(s, e, inum);
    case IputDrop(_) => EntryOrphan(s, e, inum);
    case _ => DiskOrphan(s, e, inum);
  }

  lemma EntryOrphan(s: State, e: Event, inum: nat)
    requires Inv(s) && Enabled(s, e) && Orphan(s, inum)
             && (e.Lock? || e.Load? || e.Unlock? || e.Invalidate? || e.IputDrop?)
    ensures Orphan(Apply(s, e), inum)
  {
    OrphanKept(s, Apply(s, e), inum);
  }

  lemma DiskOrphan(s: State, e: Event, inum: nat)
    requires Inv(s) && Enabled(s, e) && Orphan(s, inum) && (e.Ialloc? || e.Idup? || e.Update? || e.Zero? || e.IputFree?)
    ensures Orphan(Apply(s, e), inum)
  {
    if !e.Ialloc? { assert !Live(s, e.k, inum); }
    OrphanKept(s, Apply(s, e), inum);
  }

  lemma OrphanKept(s: State, s': State, inum: nat)
    requires Orphan(s, inum) && |s'.disk| == |s.disk| && s'.disk[inum] == s.disk[inum]
    requires forall t :: t in s'.allocs && s'.allocs[t] == inum ==> t in s.allocs && s.allocs[t] == inum
    requires forall k :: k in s'.tokens && Live(s', k, inum) ==> k in s.tokens && Live(s, k, inum)
    ensures Orphan(s', inum)
  {
  }

  lemma GetOrphan(s: State, k: nat, got: nat, i: nat, inum: nat)
    requires Inv(s) && CanGet(s, k, got, i) && Orphan(s, inum) && got != inum
    ensures forall allocs ::
              allocs == s.allocs || (forall t :: t in allocs ==> t in s.allocs && allocs[t] == s.allocs[t]) ==>
                Orphan(DoGet(s, k, got, i).(allocs := allocs), inum)
  {
    GetLive(s, k, got, i, inum);
    var s' := DoGet(s, k, got, i);
    forall u | u in s'.tokens ensures !Live(s', u, inum) { if u != k { assert !Live(s, u, inum); } }
  }

  /** Over a whole run: an inode is not orphaned up to state n if and only if no step up to there strands it. */
  lemma {:induction false} OrphansExactly(states: seq<State>, events: seq<Event>, n: nat, inum: nat)
    requires Run(states, events) && n < |states| && !Orphan(states[0], inum)
    ensures (forall i {:trigger Orphan(states[i], inum)} :: 0 <= i <= n ==> !Orphan(states[i], inum)) <==>
            (forall i {:trigger Strands(states[i], events[i], inum)} :: 0 <= i < n ==>
                !Strands(states[i], events[i], inum))
  {
    if n > 0 {
      OrphansExactly(states, events, n - 1, inum);
      RunKeeps(states, events, n - 1);
      assert Step(states, events, n - 1);
      if !Orphan(states[n - 1], inum) { StepOrphan(states[n - 1], events[n - 1], inum); }
    }
  }

  /** Once orphaned, always orphaned. */
  lemma {:induction false} OrphanForever(states: seq<State>, events: seq<Event>, i: nat, j: nat, inum: nat)
    requires Run(states, events) && i <= j < |states| && Orphan(states[i], inum)
    ensures Orphan(states[j], inum)
    decreases j - i
  {
    if i < j {
      OrphanForever(states, events, i, j - 1, inum);
      RunKeeps(states, events, j - 1);
      assert Step(states, events, j - 1);
      OrphanStays(states[j - 1], events[j - 1], inum);
    }
  }

  // ---- a run that leaves one

  lemma Extend(states: seq<State>, events: seq<Event>, e: Event) returns (states': seq<State>, events': seq<Event>)
    requires Run(states, events) && Enabled(states[|events|], e)
    ensures Run(states', events') && states'[|events'|] == Apply(states[|events|], e)
  {
    states', events' := states + [Apply(states[|events|], e)], events + [e];
    forall i | 0 <= i < |events'| ensures Step(states', events', i) {
      if i < |events| { assert Step(states, events, i); }
    }
  }

  /** A table that uses only its first entry, and a disk of inode 1 beside inode 0. */
  function Small(n: Entry, tokens: map<nat, Token>, d: Dinode, allocs: map<nat, nat>): State {
    State(seq(NINODE, i => Entry(0, 0, false, Dinode(0, 0, 0), None))[0 := n], tokens, [Dinode(0, 0, 0), d], allocs)
  }

  /** A thread looks an inode up and unlinks it. */
  lemma Unlinking() returns (states: seq<State>, events: seq<Event>)
    ensures Run(states, events)
    ensures states[|events|] ==
            Small(Entry(1, 1, true, Dinode(1, 0, 0), Some(0)), map[0 := Token(0, Held)], Dinode(1, 0, 0), map[])
  {
    var s := Small(Entry(0, 0, false, Dinode(0, 0, 0), None), map[], Dinode(1, 1, 0), map[]);
    states, events := [s], [];
    states, events := Extend(states, events, Lookup(0, 1, 0));
    states, events := Extend(states, events, Lock(0));
    states, events := Extend(states, events, Load(0));
    states, events := Extend(states, events, Update(0, Dinode(1, 0, 0)));
  }

  /** Its iput frees the inode, up to the point where the table lock is taken again. */
  lemma Freeing() returns (states: seq<State>, events: seq<Event>)
    ensures Run(states, events)
    ensures states[|events|] ==
            Small(Entry(1, 1, false, Dinode(0, 0, 0), None), map[0 := Token(0, Dropping)], Dinode(0, 0, 0), map[])
  {
    states, events := Unlinking();
    states, events := Extend(states, events, Unlock(0));
    states, events := Extend(states, events, IputFree(0));
    states, events := Extend(states, events, Zero(0, 0));
    states, events := Extend(states, events, Invalidate(0));
  }

  /** Meanwhile create allocates the same inode, and it gets its link. */
  lemma Creating() returns (states: seq<State>, events: seq<Event>)
    ensures Run(states, events)
    ensures states[|events|] ==
            Small(Entry(1, 2, true, Dinode(1, 1, 0), None), map[0 := Token(0, Dropping), 1 := Token(0, Held)],
                  Dinode(1, 1, 0), map[])
  {
    states, events := Freeing();
    states, events := Extend(states, events, Ialloc(0, 1, 1));
    states, events := Extend(states, events, IallocGet(0, 1, 0));
    assert states[|events|] ==
           Small(Entry(1, 2, false, Dinode(0, 0, 0), None), map[0 := Token(0, Dropping), 1 := Token(0, Held)],
                 Dinode(1, 0, 0), map[]);
    states, events := Extend(states, events, Lock(1));
    states, events := Extend(states, events, Load(1));
    states, events := Extend(states, events, Update(1, Dinode(1, 1, 0)));
    states, events := Extend(states, events, Unlock(1));
  }

  lemma Opening() returns (states: seq<State>, events: seq<Event>)
    ensures Run(states, events)
    ensures states[|events|] ==
            Small(Entry(1, 3, true, Dinode(1, 1, 0), Some(2)),
                  map[0 := Token(0, Dropping), 1 := Token(0, Held), 2 := Token(0, Held)], Dinode(1, 1, 0), map[])
  {
    states, events := Creating();
    states, events := Extend(states, events, Lookup(2, 1, 0));
    states, events := Extend(states, events, Lock(2));
  }

  /** The file is unlinked while it is open. */
  lemma UnlinkingAgain() returns (states: seq<State>, events: seq<Event>)
    ensures Run(states, events)
    ensures states[|events|] ==
            Small(Entry(1, 2, true, Dinode(1, 0, 0), None), map[0 := Token(0, Dropping), 1 := Token(0, Held)],
                  Dinode(1, 0, 0), map[])
  {
    states, events := Opening();
    states, events := Extend(states, events, Update(2, Dinode(1, 0, 0)));
    states, events := Extend(states, events, Unlock(2));
    states, events := Extend(states, events, IputDrop(2));
  }

  /** Closing it does not free it either, since the first thread still counts as a reference, and that one has no more
      to do. The inode stays allocated with nobody to free it. */
  lemma LeakedInode() returns (states: seq<State>, events: seq<Event>)
    ensures Run(states, events) && Orphan(states[|events|], 1)
    ensures states[|events|].tokens == map[] && states[|events|].allocs == map[]
  {
    states, events := UnlinkingAgain();
    states, events := Extend(states, events, IputDrop(1));
    states, events := Extend(states, events, IputDrop(0));
  }
}
