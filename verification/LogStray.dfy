/** Buffers released with changes that were never passed to log_write: exactly when that shows, and two runs in which it
    does. */
module LogStray {
  import opened Params
  import opened DiskLayout
  import opened LogMachine
  import opened LogInvariant
  import opened LogTheorems
  import opened LogPanic

  ghost predicate HistOk(s: State) {
    |s.hist.given| == |s.hist.saved| == s.log.layout.nblocks
  }

  /** An unlocked buffer of `block` holds what was last passed to log_write. */
  ghost predicate BufGiven(s: State, j: nat, block: int)
    requires j < |s.bufs|
  {
    Cached(s.bufs[j], block) && s.bufs[j].valid && s.bufs[j].holder == None ==>
      0 <= block < |s.hist.given| && s.bufs[j].data == s.hist.given[block]
  }

  /** For this block only what was passed to log_write is committed, waits to be committed, or can be read. */
  ghost predicate Faithful(s: State, block: int) {
    && Shape(s.log) && HistOk(s) && s.log.layout.Home(block)
    && s.log.logical[block] == s.hist.given[block] && s.log.committed[block] == s.hist.saved[block]
    && (!Recovery(s.log.phase) ==> forall j {:trigger BufGiven(s, j, block)} :: 0 <= j < |s.bufs| ==>
        BufGiven(s, j, block))
  }

  /** A buffer of the block is released with contents that were not the last passed to log_write. */
  ghost predicate Strays(s: State, e: Event, block: int) {
    && e.Release? && Has(s, e.k) && !Recovery(s.log.phase)
    && Cached(BufOf(s, e.k), block) && BufOf(s, e.k).valid
    && 0 <= block < |s.hist.given| && BufOf(s, e.k).data != s.hist.given[block]
  }

  lemma StepHist(s: State, e: Event)
    requires HistOk(s) && Enabled(s, e)
    ensures HistOk(Apply(s, e))
  {
  }

  /** A buffer that is not dirty holds the logical contents. */
  lemma CleanGiven(s: State, j: nat, block: int)
    requires Inv(s) && HistOk(s) && s.log.layout.Home(block) && j < |s.bufs| && !Recovery(s.log.phase)
    requires s.log.logical[block] == s.hist.given[block] && !s.bufs[j].dirty
    ensures BufGiven(s, j, block)
  {
    assert BufOk(s, s.bufs[j]);
  }

  lemma ReleaseFaithful(s: State, e: Event, block: int)
    requires Inv(s) && Enabled(s, e) && Faithful(s, block) && e.Release?
    ensures Faithful(Apply(s, e), block) <==> !Strays(s, e, block)
  {
    var k := e.k;
    ReleaseKeeps(s, k);
    var s', i := DoRelease(s, k), s.tickets[k].buf;
    assert BufOk(s, s.bufs[i]);
    if !Recovery(s.log.phase) {
      forall j | 0 <= j < |s.bufs| && j != i ensures BufGiven(s', j, block) { assert BufGiven(s, j, block); }
      if Strays(s, e, block) {
        assert s.bufs[i].dirty;
        assert !Slips(s, k) ==> !BufGiven(s', i, block);
      } else {
        assert BufGiven(s', i, block);
      }
    }
  }

  lemma LogWriteFaithful(s: State, e: Event, block: int)
    requires Inv(s) && Enabled(s, e) && Faithful(s, block) && e.LogWrite?
    ensures Faithful(Apply(s, e), block)
  {
    var k := e.k;
    LogWriteKeeps(s, k);
    var s', i := DoLogWrite(s, k), s.tickets[k].buf;
    forall j | 0 <= j < |s.bufs| ensures BufGiven(s', j, block) { assert BufGiven(s, j, block); }
  }

  /** Steps that leave the history, the logical disk and every released dirty buffer alone. */
  lemma OtherFaithful(s: State, e: Event, block: int)
    requires Inv(s) && Enabled(s, e) && Faithful(s, block) && !e.Release? && !e.LogWrite? && !e.Crash?
    ensures Faithful(Apply(s, e), block)
  {
    StepKeeps(s, e);
    StepHist(s, e);
    StepCommitted(s, e);
    var s' := Apply(s, e);
    if !Recovery(s'.log.phase) {
      forall j | 0 <= j < |s'.bufs| ensures BufGiven(s', j, block) {
        DirtyFrom(s, e, j);
        if s'.bufs[j].dirty && s'.bufs[j].holder == None {
          assert BufGiven(s, j, block);
        } else if !s'.bufs[j].dirty {
          CleanGiven(s', j, block);
        }
      }
    }
  }

  /** A dirty buffer nobody has locked was that before, with the same contents. */
  lemma DirtyFrom(s: State, e: Event, j: nat)
    requires Inv(s) && Enabled(s, e) && !e.Release? && !e.Crash? && j < |s.bufs| == |Apply(s, e).bufs|
    ensures var b, b' := s.bufs[j], Apply(s, e).bufs[j];
      b'.dirty && b'.holder == None ==>
        b.dirty && b.holder == None && b.valid && b'.data == b.data && b'.dev == b.dev && b'.blockno == b.blockno
            && !Recovery(s.log.phase)
  {
    assert BufOk(s, s.bufs[j]);
  }

  /** A step keeps a block faithful if and only if it is not a release of contents that were not logged. */
  lemma StepFaithful(s: State, e: Event, block: int)
    requires Inv(s) && Enabled(s, e) && Faithful(s, block)
    ensures Faithful(Apply(s, e), block) <==> !Strays(s, e, block)
  {
    if e.Release? {
      ReleaseFaithful(s, e, block);
    } else if e.LogWrite? {
      LogWriteFaithful(s, e, block);
    } else if e.Crash? {
      CrashFaithful(s, e, block);
    } else {
      OtherFaithful(s, e, block);
    }
  }

  lemma CrashFaithful(s: State, e: Event, block: int)
    requires Inv(s) && Enabled(s, e) && Faithful(s, block) && e.Crash?
    ensures Faithful(Apply(s, e), block)
  {
    CrashKeeps(s);
  }

  /** The contents last passed to log_write before the last commit header was written. */
  ghost function SavedDisk(states: seq<State>, events: seq<Event>, i: nat): Disk
    requires |states| == |events| + 1 && i <= |events|
  {
    var j := LastCommit(events, i);
    if j < 0 then states[0].log.committed else states[j].hist.given
  }

  lemma {:induction false} RunHist(states: seq<State>, events: seq<Event>, i: nat)
    requires Run(states, events) && i <= |events|
    ensures HistOk(states[i]) && states[i].hist.saved == SavedDisk(states, events, i)
  {
    if i > 0 {
      RunHist(states, events, i - 1);
      StepHist(states[i - 1], events[i - 1]);
    }
  }

  /** Over every run: a block is faithful up to state n if and only if no step up to there releases a buffer of it with
      contents that were not logged. */
  lemma {:induction false} FaithfulExactly(states: seq<State>, events: seq<Event>, n: nat, block: int)
    requires Run(states, events) && n <= |events| && states[0].log.layout.Home(block)
    ensures (forall i {:trigger Faithful(states[i], block)} :: 0 <= i <= n ==> Faithful(states[i], block)) <==>
            (forall i {:trigger Strays(states[i], events[i], block)} :: 0 <= i < n ==>
                !Strays(states[i], events[i], block))
  {
    if n == 0 {
      StartFaithful(states, events, block);
    } else {
      FaithfulExactly(states, events, n - 1, block);
      if Faithful(states[n - 1], block) { NextFaithful(states, events, n - 1, block); }
    }
  }

  lemma NextFaithful(states: seq<State>, events: seq<Event>, i: nat, block: int)
    requires Run(states, events) && i < |events| && Faithful(states[i], block)
    ensures Faithful(states[i + 1], block) <==> !Strays(states[i], events[i], block)
  {
    RunKeeps(states, events, i);
    StepFaithful(states[i], events[i], block);
  }

  lemma StartFaithful(states: seq<State>, events: seq<Event>, block: int)
    requires Run(states, events) && states[0].log.layout.Home(block)
    ensures Faithful(states[0], block)
  {
    InitInv(states[0]);
  }

  /** What that means for a block no buffer of which was released so: recovery leaves what was passed to log_write
      before the last commit, a commit that has returned what was passed to it last, and whoever locks a buffer reads
      that. */
  lemma OnlyLogged(states: seq<State>, events: seq<Event>, i: nat, block: int)
    requires Run(states, events) && i <= |events| && states[0].log.layout.Home(block)
    requires forall h {:trigger Strays(states[h], events[h], block)} :: 0 <= h < i ==>
             !Strays(states[h], events[h], block)
    ensures HistOk(states[i]) && |states[i].log.disk| == |SavedDisk(states, events, i)| == states[i].log.layout.nblocks
    ensures 0 <= block < states[i].log.layout.nblocks
    ensures states[i].log.phase.Committed? ==> states[i].log.disk[block] == states[i].hist.given[block]
    ensures i < |events| && events[i].ClearHead? && states[i].log.phase.Recovering? ==>
              |states[i + 1].log.disk| == states[i].log.layout.nblocks
                  && states[i + 1].log.disk[block] == SavedDisk(states, events, i)[block]
    ensures i < |events| && events[i].Lock? && !Recovery(states[i].log.phase)
            && HoldsValid(states[i + 1], events[i].k, block) ==>
              BufOf(states[i + 1], events[i].k).data == states[i].hist.given[block]
  {
    FaithfulExactly(states, events, i, block);
    RunKeeps(states, events, i);
    RunHist(states, events, i);
    assert Faithful(states[i], block);
    if states[i].log.phase.Committed? { CommitDurable(states, events, i); }
    if i < |events| && events[i].ClearHead? && states[i].log.phase.Recovering? { CrashAtomicity(states, events, i); }
    if i < |events| && events[i].Lock? && !Recovery(states[i].log.phase) {
      assert BufGiven(states[i], states[i].tickets[events[i].k].buf, block);
    }
  }

  // ---- two runs

  /** Some contents that are not these. */
  function Other(b: Block): Block {
    if b == Filled(0) then Filled(1) else Filled(0)
  }

  function Filled(x: int): Block {
    Words(seq(WORDS, i => x))
  }

  lemma OtherDiffers(b: Block)
    ensures Other(b) != b
  {
    assert Filled(0).w[0] == 0 && Filled(1).w[0] == 1;
  }

  /** Operation 0 has changed block 31 in buffer 0; `logged` says whether it had logged the block before. */
  ghost predicate Changed(s: State, logged: bool) {
    && s.log.phase.Running? && s.log.layout == LAYOUT && |s.log.disk| == |s.log.logical| == 100 && HistOk(s)
    && s.log.ops.Keys == {0, 1, 2} && s.log.lh == (if logged then [31] else [])
    && s.tickets == map[0 := Ticket(0, Op(0))] && |s.bufs| == NBUF
    && s.bufs[0] == Buf(ROOTDEV, 31, true, if logged then 2 else 1, Some(0), true, s.bufs[0].data)
    && s.bufs[0].data != s.hist.given[31]
    && (forall j :: 1 <= j < NBUF ==> Unused(s.bufs[j]))
  }

  /** Operation 0 has locked and read block 31 in buffer 0. */
  lemma Locked31() returns (states: seq<State>, events: seq<Event>, s: State)
    ensures Run(states, events) && HistOk(states[|events|]) && After(s, 0) && states[|events|].log == s.log
    ensures states[|events|].tickets == map[0 := Ticket(0, Op(0))]
    ensures states[|events|].bufs == s.bufs[0 := Buf(ROOTDEV, 31, true, 1, Some(0), false, s.log.disk[31])]
  {
    states, events := Booted();
    s := states[|events|];
    TakenOk(s, 0);
    states, events := Extend(states, events, Get(0, Op(0), 31, 0));
    states, events := Extend(states, events, Lock(0));
    states, events := Extend(states, events, Fill(0));
    RunHist(states, events, |events|);
  }

  lemma ChangeOnly() returns (states: seq<State>, events: seq<Event>)
    ensures Run(states, events) && Changed(states[|events|], false)
  {
    var s;
    states, events, s := Locked31();
    OtherDiffers(states[|events|].hist.given[31]);
    states, events := Extend(states, events, Modify(0, Other(states[|events|].hist.given[31])));
    forall j | 1 <= j < NBUF ensures Unused(states[|events|].bufs[j]) { assert Unused(s.bufs[j]); }
  }

  lemma ChangeLogged() returns (states: seq<State>, events: seq<Event>)
    ensures Run(states, events) && Changed(states[|events|], true)
  {
    var s;
    states, events, s := Locked31();
    LoggedOk(s, states[|events|], 0);
    states, events := Extend(states, events, LogWrite(0));
    assert states[|events|].log.lh == [31] && states[|events|].log.ops.Keys == {0, 1, 2};
    OtherDiffers(states[|events|].hist.given[31]);
    states, events := Extend(states, events, Modify(0, Other(states[|events|].hist.given[31])));
    forall j | 1 <= j < NBUF ensures Unused(states[|events|].bufs[j]) { assert Unused(s.bufs[j]); }
  }

  /** A changed buffer is released and not logged; a reader locks it next and finds contents that will never reach the
      disk. */
  lemma StrayRead() returns (states: seq<State>, events: seq<Event>)
    ensures Run(states, events)
    ensures var s := states[|events|];
      && HoldsValid(s, 1, 31) && s.tickets[1].owner == Reader && 31 < |s.hist.given|
      && BufOf(s, 1).data != s.hist.given[31]
      && 31 !in s.log.lh
  {
    states, events := ChangeOnly();
    states, events := Extend(states, events, Release(0));
    states, events := Extend(states, events, Get(1, Reader, 31, 0));
    states, events := Extend(states, events, Lock(1));
  }

  /** The same after the block was logged: its new contents are in line to be committed. */
  ghost predicate InLine(s: State) {
    && s.log.layout == LAYOUT && |s.log.disk| == |s.log.logical| == 100 && HistOk(s) && s.log.lh == [31]
    && s.tickets == map[] && |s.bufs| == NBUF
    && s.bufs[0] == Buf(ROOTDEV, 31, true, 1, None, false, s.log.logical[31]) && s.log.logical[31] != s.hist.given[31]
  }

  lemma Slipped() returns (states: seq<State>, events: seq<Event>)
    ensures Run(states, events) && InLine(states[|events|]) && states[|events|].log.phase == Logging(0)
    ensures forall j :: 1 <= j < NBUF ==> Unused(states[|events|].bufs[j])
  {
    states, events := ChangeLogged();
    states, events := Extend(states, events, Release(0));
    states, events := Extend(states, events, EndOp(0));
    states, events := Extend(states, events, EndOp(1));
    states, events := Extend(states, events, EndOp(2));
  }

  /** The committing thread has locked the log block, in buffer 1, and block 31. */
  ghost predicate Copying(s: State) {
    && s.log.layout == LAYOUT && |s.log.disk| == |s.log.logical| == 100 && HistOk(s) && s.log.lh == [31]
    && |s.bufs| == NBUF
    && s.tickets == map[1 := Ticket(1, Kernel), 2 := Ticket(0, Kernel)]
    && s.bufs[0] == Buf(ROOTDEV, 31, true, 2, Some(2), false, s.log.logical[31])
    && s.log.logical[31] != s.hist.given[31]
    && s.bufs[1] == Buf(ROOTDEV, 1, true, 1, Some(1), false, s.bufs[1].data)
    && (forall j :: 2 <= j < NBUF ==> Unused(s.bufs[j]))
  }

  lemma LogBlock() returns (states: seq<State>, events: seq<Event>)
    ensures Run(states, events) && states[|events|].log.phase == Logging(0)
    ensures var s := states[|events|];
      && s.log.layout == LAYOUT && |s.log.disk| == |s.log.logical| == 100 && HistOk(s) && s.log.lh == [31]
      && |s.bufs| == NBUF
      && s.tickets == map[1 := Ticket(1, Kernel)]
      && s.bufs[0] == Buf(ROOTDEV, 31, true, 1, None, false, s.log.logical[31]) && s.log.logical[31] != s.hist.given[31]
      && s.bufs[1] == Buf(ROOTDEV, 1, true, 1, Some(1), false, s.bufs[1].data)
      && (forall j :: 2 <= j < NBUF ==> Unused(s.bufs[j]))
  {
    states, events := Slipped();
    var s := states[|events|];
    states, events := Extend(states, events, Get(1, Kernel, 1, 1));
    states, events := Extend(states, events, Lock(1));
    states, events := Extend(states, events, Fill(1));
    forall j | 2 <= j < NBUF ensures Unused(states[|events|].bufs[j]) { assert Unused(s.bufs[j]); }
  }

  lemma ToCopy() returns (states: seq<State>, events: seq<Event>)
    ensures Run(states, events) && Copying(states[|events|]) && states[|events|].log.phase == Logging(0)
  {
    states, events := LogBlock();
    var s := states[|events|];
    states, events := Extend(states, events, Get(2, Kernel, 31, 0));
    states, events := Extend(states, events, Lock(2));
    forall j | 2 <= j < NBUF ensures Unused(states[|events|].bufs[j]) { assert Unused(s.bufs[j]); }
  }

  lemma Copied() returns (states: seq<State>, events: seq<Event>)
    ensures Run(states, events) && Copying(states[|events|]) && states[|events|].log.phase == Logging(1)
  {
    states, events := ToCopy();
    var s := states[|events|];
    states, events := Extend(states, events, WriteLog(1, 2));
    forall j | 2 <= j < NBUF ensures Unused(states[|events|].bufs[j]) { assert Unused(s.bufs[j]); }
  }

  lemma InLog() returns (states: seq<State>, events: seq<Event>)
    ensures Run(states, events) && InLine(states[|events|]) && states[|events|].log.phase == Logging(1)
    ensures forall j :: 2 <= j < NBUF ==> Unused(states[|events|].bufs[j])
    ensures states[|events|].bufs[1].blockno == 1
  {
    states, events := Copied();
    var s := states[|events|];
    states, events := Extend(states, events, Release(1));
    states, events := Extend(states, events, Release(2));
    forall j | 2 <= j < NBUF ensures Unused(states[|events|].bufs[j]) { assert Unused(s.bufs[j]); }
  }

  /** The buffer that caches the header block, or buffer 2. */
  ghost function HeaderBuf(s: State): (i: nat)
    requires |s.bufs| == NBUF
    ensures 2 <= i < NBUF
    ensures Cached(s.bufs[i], 0) || forall j :: 2 <= j < NBUF ==> !Cached(s.bufs[j], 0)
  {
    if exists h :: 2 <= h < NBUF && Cached(s.bufs[h], 0) then
      var h :| 2 <= h < NBUF && Cached(s.bufs[h], 0);
      h
    else 2
  }

  ghost predicate CommittedStray(s: State) {
    && s.log.phase == Installing(0) && s.log.layout == LAYOUT && 31 < |s.log.committed| && 31 < |s.hist.saved|
    && s.log.committed[31] != s.hist.saved[31]
  }

  lemma HeadWritten(states: seq<State>, events: seq<Event>) returns (states': seq<State>, events': seq<Event>)
    requires Run(states, events)
    requires var s := states[|events|];
      && s.log.layout == LAYOUT && |s.log.disk| == |s.log.logical| == 100 && HistOk(s) && s.log.lh == [31]
      && s.log.phase == Logging(1) && s.log.logical[31] != s.hist.given[31]
      && Has(s, 3) && BufOf(s, 3).holder == Some(3) && Cached(BufOf(s, 3), 0)
    ensures Run(states', events') && CommittedStray(states'[|events'|])
  {
    states', events' := states, events;
    if !BufOf(states[|events|], 3).valid {
      states', events' := Extend(states, events, Fill(3));
    }
    states', events' := Extend(states', events', WriteHead(3));
  }

  /** And committed they are: the header is written, and what was passed to log_write is not what recovery will
      leave. */
  lemma StrayCommits() returns (states: seq<State>, events: seq<Event>)
    ensures Run(states, events) && CommittedStray(states[|events|])
  {
    states, events := InLog();
    var s := states[|events|];
    var i := HeaderBuf(s);
    assert Unused(s.bufs[i]);
    states, events := Extend(states, events, Get(3, Kernel, 0, i));
    states, events := Extend(states, events, Lock(3));
    states, events := HeadWritten(states, events);
  }
}
