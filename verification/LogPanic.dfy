/** log_write's "too big a transaction" panic: exactly when it strikes an operation within its budget, and a run in
    which it does. */
module LogPanic {
  import opened Params
  import opened DiskLayout
  import opened LogMachine
  import opened LogInvariant
  import opened LogTheorems

  // ---- exactly when

  /** Log space that is neither used nor reserved. */
  function Slack(l: Log): int { LOGSIZE - |l.lh| - Reserved(l.ops) }

  ghost predicate PairOk(l: Log, o: nat, p: nat)
    requires o in l.ops && p in l.ops
  {
    |l.ops[o] * l.ops[p]| <= Slack(l)
  }

  /** A block two open operations share has been paid for twice. */
  ghost predicate OverlapOk(l: Log) {
    forall o, p {:trigger PairOk(l, o, p)} :: o in l.ops && p in l.ops && o != p ==> PairOk(l, o, p)
  }

  lemma MeetSize(a: set<int>, b: set<int>)
    ensures |a * b| <= |a|
  {
    assert a == a * b + (a - b);
  }

  lemma {:induction false} ReservedUsed(ops: map<nat, set<int>>, o: nat)
    requires o in ops
    ensures Reserved(ops) <= |ops| * MAXOPBLOCKS - |ops[o]|
  {
    ReservedOne(ops, o);
    ReservedAtMost(ops - {o});
    assert (ops - {o}).Keys == ops.Keys - {o};
  }

  lemma BeginOverlap(s: State, o: nat)
    requires LogInv(s.log) && OverlapOk(s.log) && CanBeginOp(s, o)
    ensures OverlapOk(DoBeginOp(s, o).log)
  {
    var l, l' := s.log, DoBeginOp(s, o).log;
    ReservedOne(l'.ops, o);
    assert l'.ops - {o} == l.ops;
    forall p, q | p in l'.ops && q in l'.ops && p != q ensures PairOk(l', p, q) {
      MeetSize(l'.ops[p], l'.ops[q]);
      MeetSize(l'.ops[q], l'.ops[p]);
      assert l'.ops[p] * l'.ops[q] == l'.ops[q] * l'.ops[p];
      if p in l.ops { ReservedUsed(l.ops, p); } else { ReservedUsed(l.ops, q); }
    }
  }

  lemma LogWriteOverlap(l: Log, o: nat, b: nat, data: Block)
    requires LogInv(l) && OverlapOk(l) && o in l.ops && b < |l.logical|
    ensures OverlapOk(LogBlock(l, o, b, data))
  {
    var l' := LogBlock(l, o, b, data);
    ReservedOne(l.ops, o);
    ReservedOne(l'.ops, o);
    assert l'.ops - {o} == l.ops - {o};
    MeetMore(l.ops[o], {}, b);
    assert Slack(l') == Slack(l) + if b in l.lh && b !in l.ops[o] then 1 else 0;
    forall p, q | p in l'.ops && q in l'.ops && p != q ensures PairOk(l', p, q) {
      assert PairOk(l, p, q);
      if p == o { MeetMore(l.ops[o], l.ops[q], b); }
      if q == o {
        MeetMore(l.ops[o], l.ops[p], b);
        assert l.ops[p] * l.ops[o] == l.ops[o] * l.ops[p] && l'.ops[p] * l'.ops[o] == l'.ops[o] * l'.ops[p];
      }
    }
  }

  lemma MeetMore(a: set<int>, c: set<int>, b: int)
    ensures |(a + {b}) * c| == |a * c| + (if b in c && b !in a then 1 else 0)
    ensures |a + {b}| == |a| + (if b in a then 0 else 1)
  {
    if b in a { assert a + {b} == a; }
    if b in c && b !in a {
      assert (a + {b}) * c == a * c + {b};
    } else {
      assert (a + {b}) * c == a * c;
    }
  }

  lemma EndOverlap(s: State, o: nat)
    requires LogInv(s.log) && OverlapOk(s.log) && CanEndOp(s, o)
    ensures OverlapOk(DoEndOp(s, o).log)
  {
    ReservedOne(s.log.ops, o);
    var l' := DoEndOp(s, o).log;
    forall p, q | p in l'.ops && q in l'.ops && p != q ensures PairOk(l', p, q) { assert PairOk(s.log, p, q); }
  }

  lemma SameOverlap(l: Log, l': Log)
    requires OverlapOk(l) && (l'.ops == map[] || (l'.ops == l.ops && l'.lh == l.lh))
    ensures OverlapOk(l')
  {
    forall p, q | p in l'.ops && q in l'.ops && p != q ensures PairOk(l', p, q) { assert PairOk(l, p, q); }
  }

  lemma StepOverlap(s: State, e: Event)
    requires Inv(s) && OverlapOk(s.log) && Enabled(s, e)
    ensures OverlapOk(Apply(s, e).log)
  {
    match e
    case LogWrite(k) => LogWriteOverlap(s.log, s.tickets[k].owner.id, BufOf(s, k).blockno, BufOf(s, k).data);
    case BeginOp(o) => BeginOverlap(s, o);
    case EndOp(o) => EndOverlap(s, o);
    case _ => SameOverlap(s.log, Apply(s, e).log);
  }

  lemma {:induction false} RunOverlap(states: seq<State>, events: seq<Event>, i: nat)
    requires Run(states, events) && i <= |events|
    ensures OverlapOk(states[i].log)
  {
    if i > 0 {
      RunOverlap(states, events, i - 1);
      RunKeeps(states, events, i - 1);
      StepOverlap(states[i - 1], events[i - 1]);
    }
  }

  /** In every reachable state, a log_write by an operation within its budget panics if and only if the header is full.
      Then every open operation has logged exactly MAXOPBLOCKS blocks, no two of them have a block in common, and the
      block is one the operation has logged before, so that absorbing it would have needed no room. */
  lemma PanicsExactly(states: seq<State>, events: seq<Event>, i: nat, k: nat)
    requires Run(states, events) && i <= |events| && OpHolds(states[i], k)
    requires |states[i].log.ops[states[i].tickets[k].owner.id] + {BufOf(states[i], k).blockno}| <= MAXOPBLOCKS
    ensures TooBig(states[i].log) <==> |states[i].log.lh| == LOGSIZE
    ensures TooBig(states[i].log) ==> forall o :: o in states[i].log.ops ==> |states[i].log.ops[o]| == MAXOPBLOCKS
    ensures TooBig(states[i].log) ==>
              forall o, p :: o in states[i].log.ops && p in states[i].log.ops && o != p ==>
                  states[i].log.ops[o] !! states[i].log.ops[p]
    ensures TooBig(states[i].log) ==>
              && BufOf(states[i], k).blockno in states[i].log.ops[states[i].tickets[k].owner.id]
              && BufOf(states[i], k).blockno in states[i].log.lh
  {
    RunKeeps(states, events, i);
    RunOverlap(states, events, i);
    var s := states[i];
    if |s.log.lh| == LOGSIZE { FullLog(s.log, s.tickets[k].owner.id, BufOf(s, k).blockno); }
  }

  lemma FullLog(l: Log, o: nat, b: int)
    requires SpaceOk(l) && OverlapOk(l) && |l.lh| == LOGSIZE && o in l.ops && |l.ops[o] + {b}| <= MAXOPBLOCKS
    ensures forall p :: p in l.ops ==> |l.ops[p]| == MAXOPBLOCKS
    ensures forall p, q :: p in l.ops && q in l.ops && p != q ==> l.ops[p] !! l.ops[q]
    ensures b in l.ops[o] && b in l.lh
  {
    forall p | p in l.ops ensures |l.ops[p]| == MAXOPBLOCKS {
      ReservedOne(l.ops, p);
      ReservedNonNegative(l.ops - {p});
    }
    AllUsed(l.ops);
    forall p, q | p in l.ops && q in l.ops && p != q ensures l.ops[p] !! l.ops[q] {
      assert PairOk(l, p, q);
      NoMeet(l.ops[p], l.ops[q]);
    }
    MeetMore(l.ops[o], {}, b);
  }

  lemma NoMeet(a: set<int>, b: set<int>)
    requires |a * b| <= 0
    ensures a !! b
  {
    assert forall x :: x in a && x in b ==> x in a * b;
  }

  lemma {:induction false} AllUsed(ops: map<nat, set<int>>)
    requires forall o :: o in ops ==> |ops[o]| == MAXOPBLOCKS
    ensures Reserved(ops) == 0
    decreases |ops|
  {
    if ops != map[] { AllUsed(ops - {Least(ops.Keys)}); }
  }

  // ---- a run in which it strikes

  /** A disk of 100 zeroed blocks, the log in the first 31. */
  const LAYOUT: Layout := Layout(0, 31, 100)

  lemma Extend(states: seq<State>, events: seq<Event>, e: Event) returns (states': seq<State>, events': seq<Event>)
    requires Run(states, events) && Enabled(states[|events|], e)
    ensures Run(states', events') && states'[|events'|] == Apply(states[|events|], e)
  {
    states', events' := states + [Apply(states[|events|], e)], events + [e];
    forall i | 0 <= i < |events'|
      ensures Enabled(states'[i], events'[i]) && states'[i + 1] == Apply(states'[i], events'[i]) {
      assert i < |events| ==> states'[i] == states[i] && events'[i] == events[i] && states'[i + 1] == states[i + 1];
    }
  }

  /** After `t` rounds: operations 0, 1 and 2 are open, and blocks 31 .. 31 + t have been logged, ten by each in
      turn. */
  function Share(o: nat, t: nat): set<int> {
    set x: int | 31 <= x < 31 + t && InShare(o, x)
  }

  predicate InShare(o: nat, x: int) { 31 + 10 * o <= x < 41 + 10 * o }

  ghost predicate Pinning(b: Buf, j: nat) {
    b.dev == ROOTDEV && b.blockno == 31 + j && b.valid && b.refcnt == 1 && b.holder == None && !b.dirty
  }

  ghost predicate Unused(b: Buf) {
    b.refcnt == 0 && b.holder == None && !b.dirty && (b.dev == 0 || b.blockno == 0)
  }

  ghost predicate After(s: State, t: nat) {
    && t <= LOGSIZE && s.log.phase.Running? && s.log.layout == LAYOUT && |s.log.disk| == |s.log.logical| == 100
    && s.tickets == map[] && |s.bufs| == NBUF && |s.log.lh| == t
    && (forall j :: 0 <= j < t ==> s.log.lh[j] == 31 + j && Pinning(s.bufs[j], j))
    && (forall j :: t <= j < NBUF ==> Unused(s.bufs[j]))
    && s.log.ops.Keys == {0, 1, 2} && (forall o :: o in s.log.ops ==> s.log.ops[o] == Share(o, t))
  }

  lemma ShareSize(o: nat, t: nat)
    requires t < 10 * o + 10
    ensures |Share(o, t)| == if t <= 10 * o then 0 else t - 10 * o
  {
    if t <= 10 * o {
      assert Share(o, t) == {};
    } else {
      ShareSize(o, t - 1);
      assert Share(o, t) == Share(o, t - 1) + {30 + t};
    }
  }

  lemma ShareNext(t: nat)
    ensures Share(t / 10, t + 1) == Share(t / 10, t) + {31 + t}
    ensures forall o: nat :: o != t / 10 ==> Share(o, t + 1) == Share(o, t)
  {
  }

  /** The operation of round t takes, fills, logs and releases block 31 + t, in buffer t. */
  function Taken(s: State, t: nat): State
    requires CanGet(s, 0, Op(t / 10), 31 + t, t) && CanLock(DoGet(s, 0, Op(t / 10), 31 + t, t), 0)
    requires CanFill(DoLock(DoGet(s, 0, Op(t / 10), 31 + t, t), 0), 0)
  {
    DoFill(DoLock(DoGet(s, 0, Op(t / 10), 31 + t, t), 0), 0)
  }

  lemma TakenOk(s: State, t: nat)
    requires After(s, t) && t < LOGSIZE
    ensures CanGet(s, 0, Op(t / 10), 31 + t, t) && CanLock(DoGet(s, 0, Op(t / 10), 31 + t, t), 0)
    ensures CanFill(DoLock(DoGet(s, 0, Op(t / 10), 31 + t, t), 0), 0)
    ensures var s' := Taken(s, t);
            && s'.log == s.log && s'.tickets == map[0 := Ticket(t, Op(t / 10))]
            && s'.bufs == s.bufs[t := Buf(ROOTDEV, 31 + t, true, 1, Some(0), false, s.log.disk[31 + t])]
  {
    forall j | 0 <= j < NBUF ensures !Cached(s.bufs[j], 31 + t) {
      if j < t { assert Pinning(s.bufs[j], j); } else { assert Unused(s.bufs[j]); }
    }
    assert Unused(s.bufs[t]) && t / 10 in {0, 1, 2};
  }

  lemma LoggedOk(s: State, s3: State, t: nat)
    requires After(s, t) && t < LOGSIZE && s3.log == s.log && s3.tickets == map[0 := Ticket(t, Op(t / 10))]
    requires s3.bufs == s.bufs[t := Buf(ROOTDEV, 31 + t, true, 1, Some(0), false, s.log.disk[31 + t])]
    ensures CanLogWrite(s3, 0) && CanRelease(DoLogWrite(s3, 0), 0)
    ensures var s5 := DoRelease(DoLogWrite(s3, 0), 0);
            && s5.log == LogBlock(s.log, t / 10, 31 + t, s.log.disk[31 + t]) && s5.tickets == map[]
            && s5.bufs == s.bufs[t := Buf(ROOTDEV, 31 + t, true, 1, None, false, s.log.disk[31 + t])]
  {
    RoomFor(s, t);
    assert 31 + t !in s.log.lh;
    var s4 := DoLogWrite(s3, 0);
    assert s4.bufs == s.bufs[t := Buf(ROOTDEV, 31 + t, true, 2, Some(0), false, s.log.disk[31 + t])];
  }

  lemma RoomFor(s: State, t: nat)
    requires After(s, t) && t < LOGSIZE
    ensures t / 10 in s.log.ops && |s.log.ops[t / 10] + {31 + t}| <= MAXOPBLOCKS
  {
    ShareSize(t / 10, t);
    MeetMore(Share(t / 10, t), {}, 31 + t);
    assert t / 10 in {0, 1, 2};
  }

  lemma NextOk(s: State, s5: State, t: nat)
    requires After(s, t) && t < LOGSIZE && s5.tickets == map[]
    requires s5.log == LogBlock(s.log, t / 10, 31 + t, s.log.disk[31 + t])
    requires s5.bufs == s.bufs[t := Buf(ROOTDEV, 31 + t, true, 1, None, false, s.log.disk[31 + t])]
    ensures After(s5, t + 1)
  {
    ShareNext(t);
    assert t / 10 in {0, 1, 2} && s5.log.lh == s.log.lh + [31 + t];
    forall j | 0 <= j < t + 1 ensures s5.log.lh[j] == 31 + j && Pinning(s5.bufs[j], j) {
      if j < t { assert Pinning(s.bufs[j], j); }
    }
    forall j | t + 1 <= j < NBUF ensures Unused(s5.bufs[j]) { assert Unused(s.bufs[j]); }
  }

  lemma Round(states: seq<State>, events: seq<Event>, t: nat) returns (states': seq<State>, events': seq<Event>)
    requires Run(states, events) && After(states[|events|], t) && t < LOGSIZE
    ensures Run(states', events') && After(states'[|events'|], t + 1)
  {
    var s := states[|events|];
    TakenOk(s, t);
    LoggedOk(s, Taken(s, t), t);
    NextOk(s, DoRelease(DoLogWrite(Taken(s, t), 0), 0), t);
    states', events' := Extend(states, events, Get(0, Op(t / 10), 31 + t, t));
    states', events' := Extend(states', events', Lock(0));
    states', events' := Extend(states', events', Fill(0));
    states', events' := Extend(states', events', LogWrite(0));
    states', events' := Extend(states', events', Release(0));
  }

  /** Power-on with an empty log, and the header block read. */
  lemma PoweredOn() returns (states: seq<State>, events: seq<Event>)
    ensures Run(states, events)
    ensures states[|events|] == HeaderRead()
  {
    var s := State(seq(NBUF, i => EmptyBuf), map[], Log(LAYOUT, ZeroDisk(), [], map[], Boot, ZeroDisk(), ZeroDisk()),
                   History(ZeroDisk(), ZeroDisk()));
    states, events := [s], [];
    assert Init(s);
    states, events := Extend(states, events, Get(0, Kernel, 0, 0));
    states, events := Extend(states, events, Lock(0));
    states, events := Extend(states, events, Fill(0));
    assert states[|events|].bufs == HeaderRead().bufs;
  }

  function ZeroDisk(): Disk { seq(100, i => ZeroBlock) }

  function HeaderRead(): State {
    State(seq(NBUF, i => EmptyBuf)[0 := Buf(ROOTDEV, 0, true, 1, Some(0), false, ZeroBlock)],
          map[0 := Ticket(0, Kernel)],
          Log(LAYOUT, ZeroDisk(), [], map[], Boot, ZeroDisk(), ZeroDisk()), History(ZeroDisk(), ZeroDisk()))
  }

  /** Recovery finds nothing to install. */
  lemma Recovered() returns (states: seq<State>, events: seq<Event>)
    ensures Run(states, events)
    ensures var s := states[|events|];
            && s.log.phase.Running? && s.log.layout == LAYOUT && |s.log.disk| == |s.log.logical| == 100
            && s.log.lh == []
            && s.log.ops == map[] && s.tickets == map[] && |s.bufs| == NBUF
            && (forall j :: 0 <= j < NBUF ==> Unused(s.bufs[j]))
  {
    states, events := PoweredOn();
    states, events := Extend(states, events, ReadHead(0));
    states, events := Extend(states, events, ClearHead(0));
    states, events := Extend(states, events, Release(0));
  }

  lemma Booted() returns (states: seq<State>, events: seq<Event>)
    ensures Run(states, events) && After(states[|events|], 0)
  {
    states, events := Recovered();
    states, events := Extend(states, events, BeginOp(0));
    states, events := Extend(states, events, BeginOp(1));
    states, events := Extend(states, events, BeginOp(2));
    forall o: nat ensures Share(o, 0) == {} { }
  }

  /** Three operations log ten blocks each; then one of them, still within its budget, logs a block again, and log_write
      panics. */
  lemma RelogPanics() returns (states: seq<State>, events: seq<Event>)
    ensures Run(states, events)
    ensures var s := states[|events|];
            && OpHolds(s, 0) && |s.log.ops[s.tickets[0].owner.id] + {BufOf(s, 0).blockno}| <= MAXOPBLOCKS
            && TooBig(s.log)
  {
    states, events := Booted();
    var t := 0;
    while t < LOGSIZE
      invariant 0 <= t <= LOGSIZE && Run(states, events) && After(states[|events|], t)
    {
      states, events := Round(states, events, t);
      t := t + 1;
    }
    var s := states[|events|];
    assert Pinning(s.bufs[0], 0);
    states, events := Extend(states, events, Get(0, Op(0), 31, 0));
    states, events := Extend(states, events, Lock(0));
    FullShare();
    MeetMore(Share(0, 30), {}, 31);
  }

  lemma FullShare()
    ensures |Share(0, 30)| == MAXOPBLOCKS && 31 in Share(0, 30)
  {
    ShareSize(0, 9);
    assert Share(0, 30) == Share(0, 9) + {40};
  }
}
