/** What the log has done for an operation, told by the events of a run: when it commits, and what it was given. */
module LogHistory {
  import opened Params
  import opened DiskLayout
  import opened LogMachine
  import opened LogInvariant
  import opened LogTheorems
  import opened LogStray

  // ---- commit

  /** The last end_op commits whatever is logged; any other leaves the log alone. */
  lemma LastEndCommits(states: seq<State>, events: seq<Event>, i: nat)
    requires Run(states, events) && i < |events| && events[i].EndOp?
    ensures var l, l' := states[i].log, states[i + 1].log;
      && l'.ops == l.ops - {events[i].o} && l'.lh == l.lh && l'.disk == l.disk && l'.logical == l.logical
      && (l.ops.Keys != {events[i].o} ==> l'.ops != map[] && l'.phase.Running?)
      && (l.ops.Keys == {events[i].o} ==> l'.ops == map[] && l'.phase == if l.lh == [] then Committed else Logging(0))
  {
    RunKeeps(states, events, i);
    var l, o := states[i].log, events[i].o;
    assert (l.ops - {o}).Keys == l.ops.Keys - {o};
    if l.ops.Keys != {o} {
      var p :| p in l.ops.Keys && p != o;
      assert p in l.ops - {o};
    }
  }

  /** Whenever no operation is open and none is being committed, nothing waits and every home block on disk is the
      logical one: a crash loses nothing. */
  lemma IdleIsHome(states: seq<State>, events: seq<Event>, i: nat)
    requires Run(states, events) && i <= |events| && states[i].log.phase.Running? && states[i].log.ops == map[]
    ensures states[i].log.lh == [] && |states[i].log.disk| == |states[i].log.logical| == states[i].log.layout.nblocks
    ensures SameHome(states[i].log.layout, states[i].log.disk, states[i].log.logical)
    ensures states[i].log.layout.Valid() && Recovers(states[i].log.layout, states[i].log.disk, states[i].log.logical)
  {
    RunKeeps(states, events, i);
    var l := states[i].log;
    assert forall b :: !Pinned(l, b);
    assert !exists b :: HeadNames(l.disk[l.layout.start], b);
  }

  predicate Committing(p: Phase) {
    p.Logging? || p.Installing?
  }

  /** While a commit is under way nothing is logged, and it ends with commit's return. */
  lemma CommitStep(s: State, e: Event)
    requires Inv(s) && Enabled(s, e) && Committing(s.log.phase) && !e.Crash?
    ensures Apply(s, e).log.logical == s.log.logical && Apply(s, e).log.ops == map[]
    ensures Committing(Apply(s, e).log.phase) || Apply(s, e).log.phase.Committed?
  {
    if e.Release? { assert BufOk(s, BufOf(s, e.k)); }
  }

  lemma {:induction false} CommitKeeps(states: seq<State>, events: seq<Event>, i: nat, j: nat)
    requires Run(states, events) && i <= j <= |events| && Committing(states[i].log.phase)
    requires forall h :: i <= h < j ==> Committing(states[h].log.phase) && !events[h].Crash?
    ensures states[j].log.logical == states[i].log.logical && states[j].log.layout == states[i].log.layout
    ensures Committing(states[j].log.phase) || states[j].log.phase.Committed?
    decreases j - i
  {
    if i < j {
      CommitKeeps(states, events, i, j - 1);
      RunKeeps(states, events, j - 1);
      CommitStep(states[j - 1], events[j - 1]);
      StepCommitted(states[j - 1], events[j - 1]);
    }
  }

  /** What was logged when the last operation ended is on disk when the commit it started is over, unless a crash comes
      first. */
  lemma EndedIsDurable(states: seq<State>, events: seq<Event>, i: nat, j: nat)
    requires Run(states, events) && i < j <= |events| && events[i].EndOp? && states[i].log.ops.Keys == {events[i].o}
    requires forall h :: i < h < j ==> Committing(states[h].log.phase) && !events[h].Crash?
    requires !Committing(states[j].log.phase)
    ensures states[j].log.phase.Committed?
    ensures |states[j].log.disk| == |states[i].log.logical| == states[i].log.layout.nblocks
    ensures SameHome(states[i].log.layout, states[j].log.disk, states[i].log.logical)
  {
    LastEndCommits(states, events, i);
    RunKeeps(states, events, i);
    StepCommitted(states[i], events[i]);
    if i + 1 < j { CommitKeeps(states, events, i + 1, j); }
    CommitDurable(states, events, j);
  }

  // ---- what was given to log_write

  /** Step i passes the contents of a buffer of `block` to log_write. */
  predicate Gives(s: State, e: Event, block: int) {
    e.LogWrite? && Has(s, e.k) && BufOf(s, e.k).blockno == block
  }

  /** The contents of `block` at the last log_write of it that no crash has undone. */
  ghost function LastGiven(states: seq<State>, events: seq<Event>, i: nat, block: nat): Block
    requires |states| == |events| + 1 && i <= |events| && block < |states[0].log.committed|
    decreases i
  {
    if i == 0 then states[0].log.committed[block]
    else if Gives(states[i - 1], events[i - 1], block) then BufOf(states[i - 1], events[i - 1].k).data
    else if events[i - 1].Crash? then
      var j := LastCommit(events, i - 1);
      if j < 0 then states[0].log.committed[block] else LastGiven(states, events, j, block)
    else LastGiven(states, events, i - 1, block)
  }

  /** The record of it that LogStray speaks of is right. */
  lemma {:induction false} GivenIs(states: seq<State>, events: seq<Event>, i: nat, block: nat)
    requires Run(states, events) && i <= |events| && block < states[0].log.layout.nblocks
    ensures block < |states[i].hist.given| && states[i].hist.given[block] == LastGiven(states, events, i, block)
  {
    if i > 0 {
      GivenIs(states, events, i - 1, block);
      StepGiven(states[i - 1], events[i - 1], block);
      if events[i - 1].Crash? {
        CrashGiven(states, events, i - 1, block);
        var j := LastCommit(events, i - 1);
        if j >= 0 { GivenIs(states, events, j, block); }
      }
    }
  }

  lemma StepGiven(s: State, e: Event, block: nat)
    requires Enabled(s, e) && block < |s.hist.given|
    ensures var s' := Apply(s, e);
      && (Gives(s, e, block) ==> block < |s'.hist.given| && s'.hist.given[block] == BufOf(s, e.k).data)
      && (!Gives(s, e, block) && !e.Crash? ==> block < |s'.hist.given| && s'.hist.given[block] == s.hist.given[block])
      && (e.Crash? ==> s'.hist.given == s.hist.saved)
  {
  }

  lemma CrashGiven(states: seq<State>, events: seq<Event>, i: nat, block: nat)
    requires Run(states, events) && i <= |events| && block < states[0].log.layout.nblocks
    ensures block < |states[i].hist.saved| && states[i].hist.saved == SavedDisk(states, events, i)
  {
    RunHist(states, events, i);
    RunKeeps(states, events, i);
  }

  /** Step e may change the contents of the buffer that reference k has locked. */
  predicate Touches(e: Event, k: nat) {
    match e
    case Fill(x) => x == k
    case Modify(x, _) => x == k
    case Release(x) => x == k
    case WriteLog(to, _) => to == k
    case WriteHead(x) => x == k
    case Install(_, dbuf) => dbuf == k
    case ClearHead(x) => x == k
    case Crash => true
    case _ => false
  }

  /** Reference k still has its buffer locked, with the same block and contents. */
  ghost predicate Same(s: State, s': State, k: nat)
    requires Has(s, k)
  {
    && Has(s', k) && BufOf(s', k).holder == Some(k) && BufOf(s', k).data == BufOf(s, k).data
    && BufOf(s', k).blockno == BufOf(s, k).blockno
  }

  /** A referenced buffer is not recycled. */
  lemma GetContents(s: State, e: Event, k: nat)
    requires Inv(s) && Enabled(s, e) && Has(s, k) && BufOf(s, k).holder == Some(k) && e.Get?
    ensures Same(s, Apply(s, e), k)
  {
    assert RefOk(s, s.tickets[k].buf) && k in On(s.tickets, s.tickets[k].buf);
  }

  lemma StepContents(s: State, e: Event, k: nat)
    requires Inv(s) && Enabled(s, e) && Has(s, k) && BufOf(s, k).holder == Some(k) && !Touches(e, k)
    ensures Same(s, Apply(s, e), k)
  {
    if e.Get? {
      GetContents(s, e, k);
    } else {
      OtherContents(s, e, k);
    }
  }

  /** A buffer has one lock holder, so no other reference changes it. */
  lemma OtherContents(s: State, e: Event, k: nat)
    requires Enabled(s, e) && Has(s, k) && BufOf(s, k).holder == Some(k) && !Touches(e, k) && !e.Get?
    ensures Same(s, Apply(s, e), k)
  {
  }

  /** A client's change stays in the buffer it has locked until it makes another or releases it. */
  lemma {:induction false} ChangeStays(states: seq<State>, events: seq<Event>, i: nat, j: nat)
    requires Run(states, events) && i < j <= |events| && events[i].Modify?
    requires forall h :: i < h < j ==> !Touches(events[h], events[i].k)
    ensures var k := events[i].k;
      && Has(states[i], k) && Has(states[j], k) && BufOf(states[j], k).holder == Some(k)
      && BufOf(states[j], k).data == events[i].data && BufOf(states[j], k).blockno == BufOf(states[i], k).blockno
    decreases j
  {
    if i + 1 < j {
      ChangeStays(states, events, i, j - 1);
      RunKeeps(states, events, j - 1);
      StepContents(states[j - 1], events[j - 1], events[i].k);
    }
  }

  /** So what it passes to log_write next is that change. */
  lemma GivesChange(states: seq<State>, events: seq<Event>, i: nat, j: nat)
    requires Run(states, events) && i < j < |events| && events[i].Modify? && events[j] == LogWrite(events[i].k)
    requires forall h :: i < h < j ==> !Touches(events[h], events[i].k)
    ensures Has(states[i], events[i].k)
    ensures var b := BufOf(states[i], events[i].k).blockno;
      b < |states[0].log.committed| && LastGiven(states, events, j + 1, b) == events[i].data
  {
    ChangeStays(states, events, i, j);
    RunKeeps(states, events, j);
    assert BufOk(states[j], BufOf(states[j], events[i].k));
  }

  /** What a reader gets is what was last given to log_write, for a block that never strays. */
  lemma ReadsGiven(states: seq<State>, events: seq<Event>, i: nat, block: nat)
    requires Run(states, events) && i < |events| && states[0].log.layout.Home(block) && events[i].Lock?
    requires forall h {:trigger Strays(states[h], events[h], block)} :: 0 <= h < i ==>
             !Strays(states[h], events[h], block)
    requires !Recovery(states[i].log.phase) && HoldsValid(states[i + 1], events[i].k, block)
    ensures block < |states[0].log.committed|
    ensures BufOf(states[i + 1], events[i].k).data == LastGiven(states, events, i, block)
  {
    RunKeeps(states, events, 0);
    OnlyLogged(states, events, i, block);
    GivenIs(states, events, i, block);
  }

  /** And what recovery leaves is what was given last before the last commit. */
  lemma RecoversGiven(states: seq<State>, events: seq<Event>, i: nat, block: nat)
    requires Run(states, events) && i < |events| && states[0].log.layout.Home(block)
    requires forall h {:trigger Strays(states[h], events[h], block)} :: 0 <= h < i ==>
             !Strays(states[h], events[h], block)
    requires events[i].ClearHead? && states[i].log.phase.Recovering?
    ensures block < |states[0].log.committed| && block < |states[i + 1].log.disk|
    ensures var j := LastCommit(events, i);
            states[i + 1].log.disk[block] ==
            if j < 0 then states[0].log.committed[block] else LastGiven(states, events, j, block)
  {
    RunKeeps(states, events, 0);
    OnlyLogged(states, events, i, block);
    var j := LastCommit(events, i);
    if j >= 0 { GivenIs(states, events, j, block); }
  }

  // ---- which operations are open, and what waits to be committed

  function Opened(events: seq<Event>, i: nat, o: nat): bool
    requires i <= |events|
  {
    if i == 0 || events[i - 1].Crash? then false
    else if events[i - 1] == BeginOp(o) then true
    else if events[i - 1] == EndOp(o) then false
    else Opened(events, i - 1, o)
  }

  /** An operation is open from its begin_op to its end_op or a crash. */
  lemma {:induction false} OpenExactly(states: seq<State>, events: seq<Event>, i: nat, o: nat)
    requires Run(states, events) && i <= |events|
    ensures o in states[i].log.ops <==> Opened(events, i, o)
  {
    if i > 0 {
      OpenExactly(states, events, i - 1, o);
      StepOpen(states[i - 1], events[i - 1], o);
    }
  }

  lemma StepOpen(s: State, e: Event, o: nat)
    requires Enabled(s, e)
    ensures o in Apply(s, e).log.ops <==> e == BeginOp(o) || (o in s.log.ops && e != EndOp(o) && !e.Crash?)
  {
  }

  /** The phases of commit and recovery follow each other like this; end_op is the subject of LastEndCommits. */
  function NextPhase(p: Phase, e: Event): Phase {
    match e
    case WriteLog(_, _) => if p.Logging? then Logging(p.tail + 1) else p
    case WriteHead(_) => Installing(0)
    case Install(_, _) =>
      if p.Installing? then Installing(p.tail + 1) else if p.Recovering? then Recovering(p.tail + 1) else p
    case ClearHead(_) => if p.Recovering? then Running else Committed
    case FinishCommit => Running
    case ReadHead(_) => Recovering(0)
    case Crash => Boot
    case _ => p
  }

  lemma PhaseFollows(states: seq<State>, events: seq<Event>, i: nat)
    requires Run(states, events) && i < |events| && !events[i].EndOp?
    ensures states[i + 1].log.phase == NextPhase(states[i].log.phase, events[i])
  {
    StepPhase(states[i], events[i]);
  }

  lemma StepPhase(s: State, e: Event)
    requires Enabled(s, e) && !e.EndOp?
    ensures Apply(s, e).log.phase == NextPhase(s.log.phase, e)
  {
  }

  /** The blocks given to log_write since the last commit or crash, in the order of the first calls. */
  ghost function Waiting(states: seq<State>, events: seq<Event>, i: nat): seq<int>
    requires |states| == |events| + 1 && i <= |events|
  {
    if i == 0 || events[i - 1].Crash? || events[i - 1].ClearHead? then []
    else
      var w, s, e := Waiting(states, events, i - 1), states[i - 1], events[i - 1];
      if e.LogWrite? && Has(s, e.k) && BufOf(s, e.k).blockno !in w then w + [BufOf(s, e.k).blockno] else w
  }

  /** Outside recovery the header in memory is that list. */
  lemma {:induction false} HeaderIs(states: seq<State>, events: seq<Event>, i: nat)
    requires Run(states, events) && i <= |events| && !Recovery(states[i].log.phase)
    ensures states[i].log.lh == Waiting(states, events, i)
  {
    if i > 0 {
      RunKeeps(states, events, i - 1);
      StepHeader(states[i - 1], events[i - 1]);
      if !Recovery(states[i - 1].log.phase) { HeaderIs(states, events, i - 1); }
    }
  }

  lemma StepHeader(s: State, e: Event)
    requires Inv(s) && Enabled(s, e) && !Recovery(Apply(s, e).log.phase)
    ensures !e.Crash? && (Recovery(s.log.phase) ==> e.ClearHead?) && (e.LogWrite? ==> Has(s, e.k))
    ensures Apply(s, e).log.lh ==
            if e.ClearHead? then []
            else if e.LogWrite? && BufOf(s, e.k).blockno !in s.log.lh then s.log.lh + [BufOf(s, e.k).blockno]
            else s.log.lh
  {
  }
}
