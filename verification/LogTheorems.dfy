/** What the log and the buffer cache promise over whole runs with crashes. */
module LogTheorems {
  import opened Params
  import opened DiskLayout
  import opened LogMachine
  import opened LogInvariant

  /** Power-on with a well-formed image: an empty cache and nothing of the header read yet. */
  ghost predicate Init(s: State) {
    && s.log.layout.Valid()
    && |s.log.disk| == |s.log.committed| == s.log.layout.nblocks
    && Recovers(s.log.layout, s.log.disk, s.log.committed)
    && s == State(seq(NBUF, i => EmptyBuf), map[],
                  s.log.(lh := [], ops := map[], phase := Boot, logical := s.log.committed),
                  History(s.log.committed, s.log.committed))
  }

  ghost predicate Run(states: seq<State>, events: seq<Event>) {
    && |states| == |events| + 1 && Init(states[0])
    && forall i :: 0 <= i < |events| ==> Enabled(states[i], events[i]) && states[i + 1] == Apply(states[i], events[i])
  }

  /** The last step before state i that wrote a commit header, or -1. */
  function LastCommit(events: seq<Event>, i: nat): (j: int)
    requires i <= |events|
    ensures -1 <= j < i && (j >= 0 ==> events[j].WriteHead?)
    ensures forall h :: j < h < i ==> !events[h].WriteHead?
  {
    if i == 0 then -1 else if events[i - 1].WriteHead? then i - 1 else LastCommit(events, i - 1)
  }

  /** The home blocks a crash-free reader of the last committed transaction would see. */
  ghost function CommittedDisk(states: seq<State>, events: seq<Event>, i: nat): Disk
    requires |states| == |events| + 1 && i <= |events|
  {
    var j := LastCommit(events, i);
    if j < 0 then states[0].log.committed else states[j].log.logical
  }

  lemma {:induction false} RunKeeps(states: seq<State>, events: seq<Event>, i: nat)
    requires Run(states, events) && i <= |events|
    ensures Inv(states[i])
    ensures states[i].log.layout == states[0].log.layout
    ensures states[i].log.committed == CommittedDisk(states, events, i)
  {
    if i == 0 {
      InitInv(states[0]);
    } else {
      RunKeeps(states, events, i - 1);
      StepKeeps(states[i - 1], events[i - 1]);
      StepCommitted(states[i - 1], events[i - 1]);
    }
  }

  lemma InitInv(s: State)
    requires Init(s)
    ensures Inv(s)
  {
    assert forall j :: On(s.tickets, j) == {};
  }

  lemma StepCommitted(s: State, e: Event)
    requires Enabled(s, e)
    ensures Apply(s, e).log.layout == s.log.layout
    ensures Apply(s, e).log.committed == if e.WriteHead? then s.log.logical else s.log.committed
  {
  }

  /** Crash atomicity. However the run got there, with any number of crashes inside recovery itself,
      a completed recovery leaves every home block as the last committed transaction left it, and
      no operation was open when that transaction was committed. What that holds beyond the contents
      passed to log_write is said in LogStray. */
  lemma CrashAtomicity(states: seq<State>, events: seq<Event>, i: nat)
    requires Run(states, events) && i < |events|
    requires events[i].ClearHead? && states[i].log.phase.Recovering?
    ensures states[i + 1].log.phase.Running?
    ensures |states[i + 1].log.disk| == |CommittedDisk(states, events, i)| == states[i].log.layout.nblocks
    ensures SameHome(states[i].log.layout, states[i + 1].log.disk, CommittedDisk(states, events, i))
    ensures var j := LastCommit(events, i); j >= 0 ==> states[j].log.ops == map[]
  {
    RunKeeps(states, events, i);
    AllHome(states[i].log);
    var j := LastCommit(events, i);
    if j >= 0 {
      RunKeeps(states, events, j);
    }
  }

  /** Group commit: once commit has returned, every change any operation has logged is on disk,
      and a crash now would lose nothing. */
  lemma CommitDurable(states: seq<State>, events: seq<Event>, i: nat)
    requires Run(states, events) && i <= |events| && states[i].log.phase.Committed?
    ensures states[i].log.layout.Valid()
    ensures |states[i].log.disk| == |states[i].log.logical| == states[i].log.layout.nblocks
    ensures SameHome(states[i].log.layout, states[i].log.disk, states[i].log.logical)
    ensures Recovers(states[i].log.layout, states[i].log.disk, states[i].log.logical)
  {
    RunKeeps(states, events, i);
    var l := states[i].log;
    assert forall b :: !Pinned(l, b);
    assert !exists b :: HeadNames(l.disk[l.layout.start], b);
  }

  /** After commit every valid buffer equals its disk block, unless it was changed since the last log_write of it. */
  lemma CommittedBuffers(states: seq<State>, events: seq<Event>, i: nat, j: nat)
    requires Run(states, events) && i <= |events| && states[i].log.phase.Committed? && j < |states[i].bufs|
    requires states[i].bufs[j].dev == ROOTDEV && states[i].bufs[j].valid && !states[i].bufs[j].dirty
    ensures states[i].bufs[j].blockno < |states[i].log.disk|
    ensures states[i].bufs[j].data == states[i].log.disk[states[i].bufs[j].blockno]
  {
    RunKeeps(states, events, i);
    CommitDurable(states, events, i);
    assert BufOk(states[i], states[i].bufs[j]);
  }

  /** Cache and log refine one logical disk. A locked valid buffer of a home block, read outside recovery,
      holds the block's logical contents: those last passed to log_write or, for a block that waits to be
      committed, last released. A buffer changed and not logged holds its own; LogStray says when one is seen. */
  lemma ReadsLogical(states: seq<State>, events: seq<Event>, i: nat, k: nat, block: nat)
    requires Run(states, events) && i <= |events|
    requires !Recovery(states[i].log.phase) && states[i].log.layout.Home(block)
    requires HoldsValid(states[i], k, block) && !BufOf(states[i], k).dirty
    ensures block < |states[i].log.logical| && BufOf(states[i], k).data == states[i].log.logical[block]
  {
    RunKeeps(states, events, i);
    assert BufOk(states[i], BufOf(states[i], k));
  }

  /** Recycling a buffer in bget discards no update that was logged: the block it gives up is on disk. A change that
      was never passed to log_write (the buffer is dirty) goes with the buffer. */
  lemma RecyclingLosesNothing(states: seq<State>, events: seq<Event>, i: nat)
    requires Run(states, events) && i < |events| && events[i].Get?
    requires !Cached(states[i].bufs[events[i].i], events[i].block)
    requires states[i].bufs[events[i].i].dev == ROOTDEV && !Recovery(states[i].log.phase)
    ensures var b := states[i].bufs[events[i].i];
      && b.holder == None && On(states[i].tickets, events[i].i) == {}
      && b.blockno < |states[i].log.disk| == |states[i].log.logical|
      && (states[i].log.layout.Home(b.blockno) ==>
            states[i].log.disk[b.blockno] == states[i].log.logical[b.blockno])
      && (b.valid && !b.dirty ==> b.data == states[i].log.disk[b.blockno])
  {
    RunKeeps(states, events, i);
    IdleBuffer(states[i], events[i].i);
    assert BufOk(states[i], states[i].bufs[events[i].i]);
  }

  /** No block is ever cached twice, and a reference count is the number of holders plus the pin. */
  lemma OneBufferPerBlock(states: seq<State>, events: seq<Event>, i: nat, a: nat, b: nat)
    requires Run(states, events) && i <= |events| && a < |states[i].bufs| && b < |states[i].bufs|
    requires states[i].bufs[a].dev == states[i].bufs[b].dev == ROOTDEV
    requires states[i].bufs[a].blockno == states[i].bufs[b].blockno
    ensures a == b
    ensures states[i].bufs[a].refcnt ==
            |On(states[i].tickets, a)| + if Pinned(states[i].log, states[i].bufs[a].blockno) then 1 else 0
  {
    RunKeeps(states, events, i);
    assert RefOk(states[i], a);
  }

  /** Log space. The panics of log_write and end_op: commit never overlaps an open operation, and
      "too big a transaction" can only strike when every open operation has used up its
      MAXOPBLOCKS distinct blocks. */
  lemma LogSpace(states: seq<State>, events: seq<Event>, i: nat, o: nat)
    requires Run(states, events) && i <= |events| && o in states[i].log.ops
    ensures states[i].log.phase.Running?
    ensures |states[i].log.lh| + Reserved(states[i].log.ops) <= LOGSIZE
    ensures TooBig(states[i].log) ==> |states[i].log.ops[o]| == MAXOPBLOCKS && |states[i].log.lh| == LOGSIZE
  {
    RunKeeps(states, events, i);
    ReservedOne(states[i].log.ops, o);
    ReservedNonNegative(states[i].log.ops - {o});
  }

  lemma {:induction false} ReservedNonNegative(ops: map<nat, set<int>>)
    requires forall o :: o in ops ==> |ops[o]| <= MAXOPBLOCKS
    ensures Reserved(ops) >= 0
    decreases |ops|
  {
    if ops != map[] {
      ReservedNonNegative(ops - {Least(ops.Keys)});
    }
  }
}
