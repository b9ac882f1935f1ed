/** Every step of the driver and of the device keeps the rings and the descriptors in order. */
module VirtioInvariant {
  import opened Params
  import opened VirtioRing

  // ---- what the invariant gives each side

  /** A chain in use is three descriptors of one owner, none of them free. */
  lemma ChainInUse(s: State, b: nat)
    requires Inv(s) && b in s.g.reqs
    ensures var r := s.g.reqs[b];
            && ReqOk(s, b)
            && !s.d.free[r.i0] && !s.d.free[r.i1] && !s.d.free[r.i2]
            && s.g.owner.Keys >= {r.i0, r.i1, r.i2} && s.g.owner[r.i0] == b && s.g.owner[r.i1] == b
            && s.g.owner[r.i2] == b
  {
    assert ReqOk(s, b);
    var r := s.g.reqs[b];
    assert InChain(r, r.i0) && InChain(r, r.i1) && InChain(r, r.i2);
    assert DescOk(s, r.i0) && DescOk(s, r.i1) && DescOk(s, r.i2);
  }

  /** When the avail index differs from what the device has read, the next ring entry is a published chain it can
      follow. */
  lemma NextAvail(s: State)
    requires Inv(s) && s.v.last != s.d.availIdx
    ensures s.g.con < s.g.pub && s.v.last % NUM == s.g.con % NUM
    ensures var h := s.d.ring[s.v.last % NUM];
            ChainOk(s, h) && s.g.reqs[s.g.owner[h]].i0 == h && s.g.reqs[s.g.owner[h]].phase == Avail(s.g.con)
  {
    Wrapped(s.g.con);
    AvailHeadIs(s, s.g.con);
    assert AvailOk(s.g, s.g.con);
    var b := s.g.availAt[s.g.con];
    ChainInUse(s, b);
  }

  lemma TakenChain(s: State, h: nat)
    requires Inv(s) && h in s.v.taken
    ensures TakenOk(s, h) && ChainOk(s, h) && s.d.desc[s.d.desc[s.d.desc[h].next].next].addr.i == h
  {
    assert TakenOk(s, h);
    ChainInUse(s, s.g.owner[h]);
  }

  /** When the used index differs from what the driver has seen, the next entry is a completed chain with status 0. */
  lemma NextUsed(s: State)
    requires Inv(s) && s.d.seenIdx != s.v.usedIdx
    ensures s.g.seen < s.g.com && s.d.seenIdx % NUM == s.g.seen % NUM && IntrOk(s)
    ensures var id := s.v.used[s.d.seenIdx % NUM];
            && id in s.g.owner && s.d.info[id].b == Some(s.g.owner[id])
            && s.g.reqs[s.g.owner[id]].phase == Done(s.g.seen) && s.g.reqs[s.g.owner[id]].i0 == id
  {
    Wrapped(s.g.seen);
    UsedHeadIs(s, s.g.seen);
    assert UsedOk(s.g, s.g.seen);
    ChainInUse(s, s.g.usedAt[s.g.seen]);
  }

  /** free_chain frees exactly the three descriptors of the request. */
  lemma FreesChain(s: State, b: nat)
    requires Inv(s) && b in s.g.reqs
    ensures var r := s.g.reqs[b];
            r.i0 < NUM && r.i1 < NUM && r.i2 < NUM &&
            ChainFree(s, b) == Some((s.d.free[r.i0 := true][r.i1 := true][r.i2 := true],
                                     s.d.desc[r.i0 := NoDesc()][r.i1 := NoDesc()][r.i2 := NoDesc()]))
  {
    ChainInUse(s, b);
    var r := s.g.reqs[b];
    var f1, d1 := s.d.free[r.i0 := true], s.d.desc[r.i0 := NoDesc()];
    var f2, d2 := f1[r.i1 := true], d1[r.i1 := NoDesc()];
    assert FreeChain(f2, d2, r.i2) == Some((f2[r.i2 := true], d2[r.i2 := NoDesc()]));
    assert FreeChain(f1, d1, r.i1) == FreeChain(f2, d2, r.i2);
  }

  // ---- steps

  lemma PublishReq(s: State, b: nat, c: nat)
    requires Inv(s) && Enabled(s, Publish(b)) && c in s.g.reqs
    ensures ReqOk(Apply(s, Publish(b)), c)
  {
    Wrapped(s.g.pub);
    assert ReqOk(s, c);
  }

  lemma PublishDesc(s: State, b: nat, i: nat)
    requires Inv(s) && Enabled(s, Publish(b)) && i < NUM
    ensures DescOk(Apply(s, Publish(b)), i)
  {
    assert DescOk(s, i);
  }

  lemma PublishKeeps(s: State, b: nat)
    requires Inv(s) && Enabled(s, Publish(b))
    ensures Inv(Apply(s, Publish(b)))
  {
    var s' := Apply(s, Publish(b));
    Wrapped(s.g.pub);
    forall c | c in s'.g.reqs ensures ReqOk(s', c) { PublishReq(s, b, c); }
    forall i | 0 <= i < NUM ensures DescOk(s', i) { PublishDesc(s, b, i); }
    forall pos | s'.g.con <= pos < s'.g.pub ensures AvailOk(s'.g, pos) {
      if pos < s.g.pub { assert AvailOk(s.g, pos); }
    }
    forall pos | s'.g.seen <= pos < s'.g.com ensures UsedOk(s'.g, pos) { assert UsedOk(s.g, pos); }
    forall h | h in s'.v.taken ensures TakenOk(s', h) { assert TakenOk(s, h); }
  }

  lemma DevTakeReq(s: State, c: nat)
    requires Inv(s) && Enabled(s, DevTake) && c in s.g.reqs
    ensures ReqOk(Apply(s, DevTake), c)
  {
    NextAvail(s);
    assert ReqOk(s, c) && AvailOk(s.g, s.g.con);
    ChainInUse(s, s.g.availAt[s.g.con]);
  }

  lemma DevTakeKeeps(s: State)
    requires Inv(s) && Enabled(s, DevTake)
    ensures Inv(Apply(s, DevTake))
  {
    var s' := Apply(s, DevTake);
    NextAvail(s);
    Wrapped(s.g.con);
    forall c | c in s'.g.reqs ensures ReqOk(s', c) { DevTakeReq(s, c); }
    forall i | 0 <= i < NUM ensures DescOk(s', i) { assert DescOk(s, i); }
    DevTakeRings(s);
    forall h | h in s'.v.taken ensures TakenOk(s', h) { if h in s.v.taken { assert TakenOk(s, h); } }
  }

  lemma DevTakeRings(s: State)
    requires Inv(s) && Enabled(s, DevTake)
    ensures var g := Apply(s, DevTake).g;
      && (forall pos {:trigger AvailOk(g, pos)} :: g.con <= pos < g.pub ==> AvailOk(g, pos))
      && (forall pos {:trigger UsedOk(g, pos)} :: g.seen <= pos < g.com ==> UsedOk(g, pos))
  {
    var g := Apply(s, DevTake).g;
    NextAvail(s);
    forall pos | g.con <= pos < g.pub ensures AvailOk(g, pos) { assert AvailOk(s.g, pos); }
    forall pos | g.seen <= pos < g.com ensures UsedOk(g, pos) { assert UsedOk(s.g, pos); }
  }

  lemma DevCompleteReq(s: State, h: nat, c: nat)
    requires Inv(s) && Enabled(s, DevComplete(h)) && c in s.g.reqs
    ensures ReqOk(Apply(s, DevComplete(h)), c)
  {
    var s' := Apply(s, DevComplete(h));
    TakenChain(s, h);
    Wrapped(s.g.com);
    UsedRoom(s, h);
    ChainInUse(s, c);
    ChainInUse(s, s.g.owner[h]);
    var r := s.g.reqs[c];
    if r.phase.Done? { Slots(r.phase.pos, s.g.com); }
  }

  lemma DevCompleteKeeps(s: State, h: nat)
    requires Inv(s) && Enabled(s, DevComplete(h))
    ensures Inv(Apply(s, DevComplete(h)))
  {
    var s' := Apply(s, DevComplete(h));
    TakenChain(s, h);
    Wrapped(s.g.com);
    forall c | c in s'.g.reqs ensures ReqOk(s', c) { DevCompleteReq(s, h, c); }
    forall i | 0 <= i < NUM ensures DescOk(s', i) { assert DescOk(s, i); }
    forall pos | s'.g.con <= pos < s'.g.pub ensures AvailOk(s'.g, pos) { assert AvailOk(s.g, pos); }
    forall pos | s'.g.seen <= pos < s'.g.com ensures UsedOk(s'.g, pos) {
      if pos < s.g.com { assert UsedOk(s.g, pos); }
    }
    forall k | k in s'.v.taken ensures TakenOk(s', k) { assert TakenOk(s, k); }
  }

  lemma IntrReq(s: State, c: nat)
    requires Inv(s) && Enabled(s, Intr) && c in s.g.reqs
    ensures ReqOk(Apply(s, Intr), c)
  {
    NextUsed(s);
    assert ReqOk(s, c) && UsedOk(s.g, s.g.seen);
    ChainInUse(s, s.g.usedAt[s.g.seen]);
  }

  lemma IntrKeeps(s: State)
    requires Inv(s) && Enabled(s, Intr)
    ensures Inv(Apply(s, Intr))
  {
    var s' := Apply(s, Intr);
    NextUsed(s);
    Wrapped(s.g.seen);
    forall c | c in s'.g.reqs ensures ReqOk(s', c) { IntrReq(s, c); }
    forall i | 0 <= i < NUM ensures DescOk(s', i) { assert DescOk(s, i); }
    forall pos | s'.g.con <= pos < s'.g.pub ensures AvailOk(s'.g, pos) { assert AvailOk(s.g, pos); }
    forall pos | s'.g.seen <= pos < s'.g.com ensures UsedOk(s'.g, pos) { assert UsedOk(s.g, pos); }
    forall h | h in s'.v.taken ensures TakenOk(s', h) { assert TakenOk(s, h); }
  }

  lemma SubmitReq(s: State, b: nat, write: bool, c: nat)
    requires Inv(s) && Enabled(s, Submit(b, write)) && c in s.g.reqs
    ensures ReqOk(Apply(s, Submit(b, write)), c)
  {
    var s' := Apply(s, Submit(b, write));
    ChainInUse(s, c);
    var (i0, i1, i2) := Alloc3(s.d.free).value;
    Wrapped(s.g.pub);
    assert DescOk(s, i0);
    AvailRoom(s, i0);
    var r := s.g.reqs[c];
    if r.phase.Avail? { Slots(r.phase.pos, s.g.pub); }
  }

  lemma SubmitDesc(s: State, b: nat, write: bool, i: nat)
    requires Inv(s) && Enabled(s, Submit(b, write)) && i < NUM
    ensures DescOk(Apply(s, Submit(b, write)), i)
  {
    assert DescOk(s, i);
  }

  lemma SubmitKeeps(s: State, b: nat, write: bool)
    requires Inv(s) && Enabled(s, Submit(b, write))
    ensures Inv(Apply(s, Submit(b, write)))
  {
    var s' := Apply(s, Submit(b, write));
    Wrapped(s.g.pub);
    forall c | c in s'.g.reqs ensures ReqOk(s', c) {
      if c != b { SubmitReq(s, b, write, c); }
    }
    forall i | 0 <= i < NUM ensures DescOk(s', i) { SubmitDesc(s, b, write, i); }
    forall pos | s'.g.con <= pos < s'.g.pub ensures AvailOk(s'.g, pos) { assert AvailOk(s.g, pos); }
    forall pos | s'.g.seen <= pos < s'.g.com ensures UsedOk(s'.g, pos) { assert UsedOk(s.g, pos); }
    SubmitTaken(s, b, write);
  }

  lemma SubmitTaken(s: State, b: nat, write: bool)
    requires Inv(s) && Enabled(s, Submit(b, write))
    ensures forall h {:trigger TakenOk(Apply(s, Submit(b, write)), h)} :: h in s.v.taken ==>
            TakenOk(Apply(s, Submit(b, write)), h)
  {
    forall h | h in s.v.taken ensures TakenOk(Apply(s, Submit(b, write)), h) {
      assert TakenOk(s, h);
      ChainInUse(s, s.g.owner[h]);
    }
  }

  lemma FinishKeeps(s: State, b: nat)
    requires Inv(s) && Enabled(s, Finish(b))
    ensures Inv(Apply(s, Finish(b)))
  {
    var s' := Apply(s, Finish(b));
    FreesChain(s, b);
    ChainInUse(s, b);
    forall c | c in s'.g.reqs ensures ReqOk(s', c) { ChainInUse(s, c); }
    forall i | 0 <= i < NUM ensures DescOk(s', i) { assert DescOk(s, i); }
    forall pos | s'.g.con <= pos < s'.g.pub ensures AvailOk(s'.g, pos) { assert AvailOk(s.g, pos); }
    forall pos | s'.g.seen <= pos < s'.g.com ensures UsedOk(s'.g, pos) { assert UsedOk(s.g, pos); }
    forall h | h in s'.v.taken ensures TakenOk(s', h) {
      assert TakenOk(s, h);
      ChainInUse(s, s.g.owner[h]);
    }
  }

  lemma UseKeeps(s: State, b: nat, buf: Buf)
    requires Inv(s) && Enabled(s, Use(b, buf))
    ensures Inv(Apply(s, Use(b, buf)))
  {
    var s' := Apply(s, Use(b, buf));
    forall c | c in s'.g.reqs ensures ReqOk(s', c) { assert ReqOk(s, c); }
    forall i | 0 <= i < NUM ensures DescOk(s', i) { assert DescOk(s, i); }
    forall h | h in s'.v.taken ensures TakenOk(s', h) { assert TakenOk(s, h); }
  }

  lemma StepKeeps(s: State, e: Event)
    requires Inv(s) && Enabled(s, e)
    ensures Inv(Apply(s, e))
  {
    match e
    case Submit(b, write) => SubmitKeeps(s, b, write);
    case Publish(b) => PublishKeeps(s, b);
    case DevTake => DevTakeKeeps(s);
    case DevComplete(h) => DevCompleteKeeps(s, h);
    case Intr => IntrKeeps(s);
    case Finish(b) => FinishKeeps(s, b);
    case Use(b, buf) => UseKeeps(s, b, buf);
  }

  // ---- runs

  /** virtio_disk_init: everything free, both rings empty, both indices 0. */
  ghost predicate Init(s: State) {
    && Sized(s) && (forall i :: 0 <= i < NUM ==> s.d.free[i] && s.d.desc[i] == NoDesc() && s.d.info[i].b == None)
    && s.d.availIdx == s.v.last == s.v.usedIdx == s.d.seenIdx == 0 && s.v.taken == {} && s.m.busy == {}
    && s.g == Book(map[], map[], map[], map[], 0, 0, 0, 0, None)
    && (forall b :: b in s.m.bufs ==> |s.m.bufs[b].data| == SECTORS)
  }

  ghost predicate Step(states: seq<State>, events: seq<Event>, i: nat)
    requires i < |events| && |states| == |events| + 1
  {
    Enabled(states[i], events[i]) && states[i + 1] == Apply(states[i], events[i])
  }

  ghost predicate Run(states: seq<State>, events: seq<Event>) {
    && |states| == |events| + 1 && Init(states[0])
    && (forall i {:trigger Step(states, events, i)} :: 0 <= i < |events| ==> Step(states, events, i))
  }

  lemma {:induction false} RunKeeps(states: seq<State>, events: seq<Event>, i: nat)
    requires Run(states, events) && i < |states|
    ensures Inv(states[i])
  {
    if i == 0 {
      forall k | 0 <= k < NUM ensures DescOk(states[0], k) { }
    } else {
      RunKeeps(states, events, i - 1);
      assert Step(states, events, i - 1);
      StepKeeps(states[i - 1], events[i - 1]);
    }
  }

  /** In every reachable state a descriptor is free or in exactly one chain, a chain being three different
      descriptors. */
  lemma OneChainEach(states: seq<State>, events: seq<Event>, i: nat, k: nat, b: nat, c: nat)
    requires Run(states, events) && i < |states| && k < NUM
    ensures Sized(states[i])
    ensures states[i].d.free[k] <==> !exists b :: b in states[i].g.reqs && InChain(states[i].g.reqs[b], k)
    ensures (b in states[i].g.reqs && InChain(states[i].g.reqs[b], k))
            && (c in states[i].g.reqs && InChain(states[i].g.reqs[c], k))
            ==> b == c
    ensures b in states[i].g.reqs ==> var r := states[i].g.reqs[b]; r.i0 != r.i1 && r.i0 != r.i2 && r.i1 != r.i2
  {
    var s := states[i];
    RunKeeps(states, events, i);
    assert DescOk(s, k);
    forall x | x in s.g.reqs ensures ReqOk(s, x) { }
  }

  /** No step in any run changes a ring entry the device has not read yet, nor a used entry the driver has not seen,
      and the 16-bit indices tell each side exactly whether there is such an entry. */
  lemma NothingOverwritten(states: seq<State>, events: seq<Event>, i: nat, pos: nat)
    requires Run(states, events) && i < |events|
    ensures var s, s' := states[i], states[i + 1];
            && Sized(s) && Sized(s')
            && (s.g.con <= pos < s.g.pub ==> s'.d.ring[pos % NUM] == s.d.ring[pos % NUM])
            && (s.g.seen <= pos < s.g.com ==> s'.v.used[pos % NUM] == s.v.used[pos % NUM])
            && (s.v.last != s.d.availIdx <==> s.g.con < s.g.pub) && (s.d.seenIdx != s.v.usedIdx <==> s.g.seen < s.g.com)
  {
    var s := states[i];
    RunKeeps(states, events, i);
    RunKeeps(states, events, i + 1);
    assert Step(states, events, i);
    SmallWindows(s);
    match events[i]
    case Submit(b, write) =>
      var (i0, i1, i2) := Alloc3(s.d.free).value;
      Wrapped(s.g.pub);
      assert DescOk(s, i0);
      AvailRoom(s, i0);
      if s.g.con <= pos < s.g.pub { Slots(pos, s.g.pub); }
    case DevComplete(h) =>
      TakenChain(s, h);
      Wrapped(s.g.com);
      UsedRoom(s, h);
      if s.g.seen <= pos < s.g.com { Slots(pos, s.g.com); }
    case _ =>
  }

  lemma SmallWindows(s: State)
    requires Inv(s)
    ensures s.v.last != s.d.availIdx <==> s.g.con < s.g.pub
    ensures s.d.seenIdx != s.v.usedIdx <==> s.g.seen < s.g.com
  {
    if s.g.con < s.g.pub { AvailRoomAll(s); Apart(s.g.con, s.g.pub); }
    if s.g.seen < s.g.com { UsedRoomAll(s); Apart(s.g.seen, s.g.com); }
  }

  lemma Apart(p: nat, q: nat)
    requires p < q <= p + NUM
    ensures p % IDX != q % IDX
  {
  }

  lemma AvailRoomAll(s: State)
    requires Inv(s)
    ensures s.g.pub - s.g.con <= NUM
  {
    var n, con := s.g.pub - s.g.con, s.g.con;
    var w: seq<int> := seq(n, k requires 0 <= k < n => AvailHead(s, con + k));
    forall i | 0 <= i < n ensures 0 <= w[i] < NUM { AvailHeadIs(s, con + i); }
    forall i, j | 0 <= i < j < n ensures w[i] != w[j] { AvailDiffer(s, con + i, con + j); }
    Pigeonhole(w, NUM);
  }

  lemma UsedRoomAll(s: State)
    requires Inv(s)
    ensures s.g.com - s.g.seen <= NUM
  {
    var n, seen := s.g.com - s.g.seen, s.g.seen;
    var w: seq<int> := seq(n, k requires 0 <= k < n => UsedHead(s, seen + k));
    forall i | 0 <= i < n ensures 0 <= w[i] < NUM { UsedHeadIs(s, seen + i); }
    forall i, j | 0 <= i < j < n ensures w[i] != w[j] { UsedDiffer(s, seen + i, seen + j); }
    Pigeonhole(w, NUM);
  }

  /** No panic in any run: the interrupt handler never sees a status other than 0 or an entry that is no chain,
      free_chain never meets a free or an impossible descriptor, and the device never gets a chain it cannot follow. */
  lemma NoPanic(states: seq<State>, events: seq<Event>, i: nat, b: nat, h: nat)
    requires Run(states, events) && i < |states|
    ensures Sized(states[i])
    ensures states[i].v.last != states[i].d.availIdx ==> Enabled(states[i], DevTake)
    ensures h in states[i].v.taken ==> Enabled(states[i], DevComplete(h))
    ensures states[i].g.lock == None && states[i].d.seenIdx != states[i].v.usedIdx ==> Enabled(states[i], Intr)
    ensures states[i].g.lock == None && b in states[i].g.reqs && b !in states[i].m.busy ==>
            Enabled(states[i], Finish(b))
  {
    var s := states[i];
    RunKeeps(states, events, i);
    if s.v.last != s.d.availIdx { NextAvail(s); }
    if h in s.v.taken { TakenChain(s, h); }
    if s.d.seenIdx != s.v.usedIdx { NextUsed(s); }
    if b in s.g.reqs { FreesChain(s, b); }
  }

  /** Buffer b written to its block, or its block read into it. */
  function Moved(m: Data, b: nat, write: bool): Data
    requires b in m.bufs
  {
    var buf := m.bufs[b];
    if write then Store(m, Sector(buf.blockno), buf.data)
    else m.(bufs := m.bufs[b := buf.(data := Load(m, Sector(buf.blockno), SECTORS))])
  }

  /** A completion moves the data of the request that owns the chain, between that request's buffer and that buffer's
      block, in the direction asked for; no other buffer and no other block changes. */
  lemma TransfersRequest(states: seq<State>, events: seq<Event>, i: nat, h: nat)
    requires Run(states, events) && i < |events| && events[i] == DevComplete(h)
    ensures var s, s' := states[i], states[i + 1];
            && h in s.g.owner && s.g.owner[h] in s.g.reqs && s.g.owner[h] in s.m.bufs
            && s'.m == Moved(s.m, s.g.owner[h], s.g.reqs[s.g.owner[h]].write)
  {
    RunKeeps(states, events, i);
    assert Step(states, events, i);
    TakenChain(states[i], h);
    ChainInUse(states[i], states[i].g.owner[h]);
  }

  /** An acknowledgement clears the flag of exactly the buffer whose request the device completed, and each completed
      request is acknowledged once, in the order of completion. */
  lemma ClearsIssuer(states: seq<State>, events: seq<Event>, i: nat)
    requires Run(states, events) && i < |events| && events[i] == Intr
    ensures var s, s' := states[i], states[i + 1];
            && s.g.seen in s.g.usedAt && var b := s.g.usedAt[s.g.seen];
            && b in s.g.reqs && s.g.reqs[b].phase == Done(s.g.seen) && b in s.m.busy
            && s'.m.busy == s.m.busy - {b} && s'.g.seen == s.g.seen + 1
  {
    var s := states[i];
    RunKeeps(states, events, i);
    assert Step(states, events, i);
    NextUsed(s);
    assert UsedOk(s.g, s.g.seen);
    ChainInUse(s, s.g.usedAt[s.g.seen]);
  }
}
