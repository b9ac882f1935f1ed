/** What virtio_disk_rw has done when it returns, told by the requests of a run. */
module VirtioTransfers {
  import opened Params
  import opened VirtioRing
  import opened VirtioInvariant

  // ---- blocks

  /** What the disk holds of a block: its bytes are those from blockno * BSIZE on. */
  function OnDisk(m: Data, blockno: nat): (s: seq<int>)
    ensures |s| == SECTORS && forall k :: 0 <= k < SECTORS ==> s[k] == Stored(m, blockno * BSIZE / SECTOR + k)
  {
    Load(m, blockno * BSIZE / SECTOR, SECTORS)
  }

  /** The sectors of different blocks are different. */
  lemma SectorsApart(a: nat, b: nat, j: nat, k: nat)
    requires a != b && j < SECTORS && k < SECTORS
    ensures Sector(a) + j != Sector(b) + k
  {
  }

  lemma SectorIs(blockno: nat)
    ensures Sector(blockno) == blockno * BSIZE / SECTOR
  {
  }

  /** A write changes its block and no other. */
  lemma StoreBlock(m: Data, a: nat, data: seq<int>, b: nat)
    requires |data| == SECTORS
    ensures OnDisk(Store(m, Sector(a), data), b) == if a == b then data else OnDisk(m, b)
  {
    SectorIs(a);
    SectorIs(b);
    var m' := Store(m, Sector(a), data);
    forall k | 0 <= k < SECTORS
      ensures OnDisk(m', b)[k] == if a == b then data[k] else OnDisk(m, b)[k]
    {
      if a != b && Sector(a) <= Sector(b) + k < Sector(a) + SECTORS {
        SectorsApart(a, b, Sector(b) + k - Sector(a), k);
      }
    }
  }

  // ---- requests

  /** The device completes the request of buffer b. */
  predicate Completes(s: State, e: Event, b: nat) {
    e.DevComplete? && e.h in s.g.owner && s.g.owner[e.h] == b
  }

  /** The step that handed buffer b to the driver last. */
  ghost function Handed(events: seq<Event>, i: nat, b: nat): Option<nat>
    requires i <= |events|
    ensures Handed(events, i, b).Some? ==>
              Handed(events, i, b).value < i && events[Handed(events, i, b).value].Submit?
              && events[Handed(events, i, b).value].b == b
  {
    if i == 0 then None
    else if events[i - 1].Submit? && events[i - 1].b == b then Some(i - 1)
    else Handed(events, i - 1, b)
  }

  /** The step that completed that request, if it is complete. */
  ghost function Completed(states: seq<State>, events: seq<Event>, i: nat, b: nat): (r: Option<nat>)
    requires |states| == |events| + 1 && i <= |events|
    ensures r.Some? ==> r.value < i && Completes(states[r.value], events[r.value], b)
    ensures r.Some? && Handed(events, i, b).Some? ==> Handed(events, i, b).value < r.value
  {
    if i == 0 || (events[i - 1].Submit? && events[i - 1].b == b) then None
    else if Completes(states[i - 1], events[i - 1], b) then Some(i - 1)
    else Completed(states, events, i - 1, b)
  }

  /** The contents block n got at the last completed write of it, or had before. */
  ghost function LastWritten(states: seq<State>, events: seq<Event>, i: nat, n: nat): seq<int>
    requires |states| == |events| + 1 && i <= |events|
  {
    if i == 0 then OnDisk(states[0].m, n)
    else
      var w := WrittenAt(states, events, i - 1, n);
      if w.Some? then w.value else LastWritten(states, events, i - 1, n)
  }

  /** What step i writes to block n: the contents that a buffer of that block had when it was handed over for
      writing. */
  ghost function WrittenAt(states: seq<State>, events: seq<Event>, i: nat, n: nat): Option<seq<int>>
    requires |states| == |events| + 1 && i < |events|
  {
    if events[i].DevComplete? && events[i].h in states[i].g.owner then
      var b := states[i].g.owner[events[i].h];
      var k := Handed(events, i, b);
      if k.Some? && events[k.value].write && b in states[k.value].m.bufs && states[k.value].m.bufs[b].blockno == n
      then Some(states[k.value].m.bufs[b].data) else None
    else None
  }

  // ---- what a request knows

  ghost predicate Finished(p: Phase) { p.Done? || p.Cleared? }

  /** The request of b is the one handed over at step k: direction and block are those of the Submit, the buffer is as
      it was then until a read fills it. */
  ghost predicate ReqIs(states: seq<State>, events: seq<Event>, i: nat, b: nat)
    requires |states| == |events| + 1 && i <= |events| && b in states[i].g.reqs
  {
    var s, k := states[i], Handed(events, i, b);
    && k.Some? && b in s.m.bufs && b in states[k.value].m.bufs
    && s.g.reqs[b].write == events[k.value].write
    && s.m.bufs[b].blockno == states[k.value].m.bufs[b].blockno
    && (Completed(states, events, i, b).Some? <==> Finished(s.g.reqs[b].phase))
    && (Completed(states, events, i, b).None? || s.g.reqs[b].write ==> s.m.bufs[b] == states[k.value].m.bufs[b])
  }

  ghost predicate Fresh(e: Event, b: nat) { e.Submit? && e.b == b }

  /** One step, as the request of b sees it. */
  ghost predicate Seen(s: State, s': State, e: Event, b: nat) {
    && b in s'.g.reqs && b in s'.m.bufs && b in s.m.bufs
    && if Fresh(e, b) then
         s'.g.reqs[b].write == e.write && s'.g.reqs[b].phase == New && s'.m.bufs[b] == s.m.bufs[b]
       else
         && b in s.g.reqs && s'.g.reqs[b].write == s.g.reqs[b].write && s'.m.bufs[b].blockno == s.m.bufs[b].blockno
         && (Finished(s'.g.reqs[b].phase) <==> Finished(s.g.reqs[b].phase) || Completes(s, e, b))
         && (!Completes(s, e, b) || s.g.reqs[b].write ==> s'.m.bufs[b] == s.m.bufs[b])
  }

  lemma SeenStep(s: State, e: Event, b: nat)
    requires Inv(s) && Enabled(s, e) && b in Apply(s, e).g.reqs
    ensures Seen(s, Apply(s, e), e, b)
  {
    if b in s.g.reqs { assert ReqOk(s, b); }
    match e
    case DevTake => TakeSeen(s, b);
    case DevComplete(h) => CompleteSeen(s, h, b);
    case Intr => NextUsed(s);
    case _ =>
  }

  lemma TakeSeen(s: State, b: nat)
    requires Inv(s) && Enabled(s, DevTake) && b in s.g.reqs && b in s.m.bufs
    ensures Seen(s, Apply(s, DevTake), DevTake, b)
  {
    NextAvail(s);
    assert AvailOk(s.g, s.g.con);
    ChainInUse(s, s.g.availAt[s.g.con]);
  }

  lemma CompleteSeen(s: State, h: nat, b: nat)
    requires Inv(s) && Enabled(s, DevComplete(h)) && b in s.g.reqs && b in s.m.bufs
    ensures Seen(s, Apply(s, DevComplete(h)), DevComplete(h), b)
  {
    TakenChain(s, h);
    ChainInUse(s, s.g.owner[h]);
  }

  lemma {:induction false} Knows(states: seq<State>, events: seq<Event>, i: nat, b: nat)
    requires Run(states, events) && i <= |events| && b in states[i].g.reqs
    ensures ReqIs(states, events, i, b)
  {
    assert i > 0;
    assert Step(states, events, i - 1);
    RunKeeps(states, events, i - 1);
    SeenStep(states[i - 1], events[i - 1], b);
    if !Fresh(events[i - 1], b) { Knows(states, events, i - 1, b); }
  }

  // ---- what the driver remembers

  /** disk.info names the buffer of each chain at its head and nothing elsewhere; its status byte is 0xff until the
      device has completed the chain, and 0 from then on. A free descriptor is clear. */
  ghost predicate InfoOk(s: State) {
    && |s.d.info| == |s.d.free| == |s.d.desc| == NUM
    && (forall h :: 0 <= h < NUM && s.d.free[h] ==> s.d.desc[h] == NoDesc())
    && (forall h :: 0 <= h < NUM && s.d.info[h].b.Some? ==>
          s.d.info[h].b.value in s.g.reqs && s.g.reqs[s.d.info[h].b.value].i0 == h)
    && (forall b {:trigger StatusOk(s, b)} :: b in s.g.reqs ==> StatusOk(s, b))
  }

  ghost predicate StatusOk(s: State, b: nat)
    requires b in s.g.reqs && |s.d.info| == NUM
  {
    var r := s.g.reqs[b];
    r.i0 < NUM && s.d.info[r.i0] == Info(Some(b), if Finished(r.phase) then 0 else 0xff)
  }

  lemma StepInfo(s: State, e: Event)
    requires Inv(s) && InfoOk(s) && Enabled(s, e)
    ensures InfoOk(Apply(s, e))
  {
    match e
    case Submit(b, _) => SubmitInfo(s, e);
    case DevTake => TakeInfo(s);
    case DevComplete(h) => CompleteInfo(s, h);
    case Intr => IntrInfo(s);
    case Finish(b) => FinishInfo(s, b);
    case _ => OtherInfo(s, e);
  }

  lemma SubmitInfo(s: State, e: Event)
    requires Inv(s) && InfoOk(s) && Enabled(s, e) && e.Submit?
    ensures InfoOk(Apply(s, e))
  {
    var s', i0 := Apply(s, e), Alloc3(s.d.free).value.0;
    assert DescOk(s, i0);
    forall b | b in s'.g.reqs ensures StatusOk(s', b) {
      if b != e.b { assert StatusOk(s, b) && ReqOk(s, b) && InChain(s.g.reqs[b], s.g.reqs[b].i0); }
    }
  }

  lemma TakeInfo(s: State)
    requires Inv(s) && InfoOk(s) && Enabled(s, DevTake)
    ensures InfoOk(Apply(s, DevTake))
  {
    NextAvail(s);
    assert AvailOk(s.g, s.g.con);
    ChainInUse(s, s.g.availAt[s.g.con]);
    var s' := Apply(s, DevTake);
    forall b | b in s'.g.reqs ensures StatusOk(s', b) { assert StatusOk(s, b); }
  }

  lemma CompleteInfo(s: State, h: nat)
    requires Inv(s) && InfoOk(s) && Enabled(s, DevComplete(h))
    ensures InfoOk(Apply(s, DevComplete(h)))
  {
    TakenChain(s, h);
    ChainInUse(s, s.g.owner[h]);
    var s' := Apply(s, DevComplete(h));
    forall b | b in s'.g.reqs ensures StatusOk(s', b) { assert StatusOk(s, b); }
  }

  lemma IntrInfo(s: State)
    requires Inv(s) && InfoOk(s) && Enabled(s, Intr)
    ensures InfoOk(Apply(s, Intr))
  {
    NextUsed(s);
    var s' := Apply(s, Intr);
    forall b | b in s'.g.reqs ensures StatusOk(s', b) { assert StatusOk(s, b); }
  }

  lemma FinishInfo(s: State, b: nat)
    requires Inv(s) && InfoOk(s) && Enabled(s, Finish(b))
    ensures InfoOk(Apply(s, Finish(b)))
  {
    FreesChain(s, b);
    ChainInUse(s, b);
    var s' := Apply(s, Finish(b));
    assert StatusOk(s, b);
    forall c | c in s'.g.reqs ensures StatusOk(s', c) {
      assert StatusOk(s, c);
      ChainInUse(s, c);
    }
  }

  lemma OtherInfo(s: State, e: Event)
    requires Inv(s) && InfoOk(s) && Enabled(s, e) && (e.Publish? || e.Use?)
    ensures InfoOk(Apply(s, e))
  {
    var s' := Apply(s, e);
    forall b | b in s'.g.reqs ensures StatusOk(s', b) { assert StatusOk(s, b); }
  }

  lemma {:induction false} InfoIs(states: seq<State>, events: seq<Event>, i: nat)
    requires Run(states, events) && i <= |events|
    ensures InfoOk(states[i])
  {
    if i > 0 {
      InfoIs(states, events, i - 1);
      assert Step(states, events, i - 1);
      RunKeeps(states, events, i - 1);
      StepInfo(states[i - 1], events[i - 1]);
    }
  }

  // ---- the disk

  /** What a completed request does to a block. */
  lemma CompleteDisk(s: State, h: nat, n: nat)
    requires Inv(s) && Enabled(s, DevComplete(h))
    ensures h in s.g.owner && s.g.owner[h] in s.g.reqs && s.g.owner[h] in s.m.bufs
    ensures var b := s.g.owner[h]; var s' := Apply(s, DevComplete(h));
      && OnDisk(s'.m, n) == (if s.g.reqs[b].write && s.m.bufs[b].blockno == n then s.m.bufs[b].data else OnDisk(s.m, n))
      && (!s.g.reqs[b].write ==> b in s'.m.bufs && s'.m.bufs[b].data == OnDisk(s.m, s.m.bufs[b].blockno))
  {
    TakenChain(s, h);
    var b := s.g.owner[h];
    ChainInUse(s, b);
    StoreBlock(s.m, s.m.bufs[b].blockno, s.m.bufs[b].data, n);
    SectorIs(s.m.bufs[b].blockno);
  }

  lemma OtherDisk(s: State, e: Event, n: nat)
    requires Enabled(s, e) && !e.DevComplete?
    ensures OnDisk(Apply(s, e).m, n) == OnDisk(s.m, n)
  {
  }

  /** In every state the disk holds of each block what the last completed write of that block put there. */
  lemma {:induction false} DiskIs(states: seq<State>, events: seq<Event>, i: nat, n: nat)
    requires Run(states, events) && i <= |events|
    ensures OnDisk(states[i].m, n) == LastWritten(states, events, i, n)
  {
    if i > 0 {
      DiskIs(states, events, i - 1, n);
      assert Step(states, events, i - 1);
      RunKeeps(states, events, i - 1);
      var s, e := states[i - 1], events[i - 1];
      if e.DevComplete? {
        CompleteDisk(s, e.h, n);
        Knows(states, events, i - 1, s.g.owner[e.h]);
      } else {
        OtherDisk(s, e, n);
      }
    }
  }

  /** A completed read has left in its buffer what the disk held of its block, and it stays there. */
  lemma {:induction false} ReadStays(states: seq<State>, events: seq<Event>, j: nat, b: nat)
    requires Run(states, events) && j <= |events| && b in states[j].g.reqs && !states[j].g.reqs[b].write
    requires Completed(states, events, j, b).Some?
    ensures b in states[j].m.bufs
    ensures states[j].m.bufs[b].data ==
            LastWritten(states, events, Completed(states, events, j, b).value, states[j].m.bufs[b].blockno)
  {
    var s, e := states[j - 1], events[j - 1];
    assert Step(states, events, j - 1);
    RunKeeps(states, events, j - 1);
    SeenStep(s, e, b);
    if Completes(s, e, b) {
      CompleteDisk(s, e.h, 0);
      DiskIs(states, events, j - 1, s.m.bufs[b].blockno);
    } else {
      ReadStays(states, events, j - 1, b);
    }
  }

  // ---- virtio_disk_rw

  /** When virtio_disk_rw returns, the device has completed the request it made, after it made it. A read has brought
      what the last completed write before that put in the block of the same number; a write has put there what the
      buffer held. */
  lemma RwReturns(states: seq<State>, events: seq<Event>, j: nat, b: nat) returns (k: nat, i: nat)
    requires Run(states, events) && j < |events| && events[j] == Finish(b)
    ensures k < i < j && events[k].Submit? && events[k].b == b && Completes(states[i], events[i], b)
    ensures forall h :: k < h < j ==> !(events[h].Submit? && events[h].b == b)
    ensures b in states[k].m.bufs && b in states[j].m.bufs
    ensures states[j].m.bufs[b].blockno == states[k].m.bufs[b].blockno
    ensures var n := states[k].m.bufs[b].blockno;
      if events[k].write then
        LastWritten(states, events, i + 1, n) == states[k].m.bufs[b].data == states[j].m.bufs[b].data
      else states[j].m.bufs[b].data == LastWritten(states, events, i, n)
  {
    assert Step(states, events, j);
    RunKeeps(states, events, j);
    assert ReqOk(states[j], b);
    Knows(states, events, j, b);
    k, i := Handed(events, j, b).value, Completed(states, events, j, b).value;
    HandedLast(events, j, b);
    HandedThen(states, events, i, j, b);
    if !events[k].write { ReadStays(states, events, j, b); }
  }

  lemma {:induction false} HandedLast(events: seq<Event>, j: nat, b: nat)
    requires j <= |events| && Handed(events, j, b).Some?
    ensures forall h :: Handed(events, j, b).value < h < j ==> !(events[h].Submit? && events[h].b == b)
  {
    if j > 0 && !(events[j - 1].Submit? && events[j - 1].b == b) { HandedLast(events, j - 1, b); }
  }

  lemma {:induction false} HandedThen(states: seq<State>, events: seq<Event>, i: nat, j: nat, b: nat)
    requires |states| == |events| + 1 && j <= |events| && Completed(states, events, j, b) == Some(i)
    ensures Handed(events, i, b) == Handed(events, j, b)
  {
    if j - 1 != i { HandedThen(states, events, i, j - 1, b); }
  }
}
