/** Readers and writers of one pipe, interleaved at every hold of pi->lock. */
module PipeRuns {
  import opened Params
  import opened Pipe

  /** A thread inside pipewrite, with its bytes and how many are written, or inside piperead. */
  datatype Call = Writing(src: seq<Byte>, i: nat) | Reading(n: nat)

  /** `sleepR` sleep on nread, `sleepW` on nwrite; `accepted` and `consumed` are all the bytes ever put in and taken
      out. */
  datatype State = State(p: Ring, calls: map<nat, Call>, sleepR: set<nat>, sleepW: set<nat>,
                         accepted: seq<Byte>, consumed: seq<Byte>)

  /** A writer or reader runs from taking the lock to giving it up; `kill` and `killed` say whether it saw pr->killed
      set. */
  datatype Event =
    | BeginWrite(t: nat, src: seq<Byte>)
    | BeginRead(t: nat, n: nat)
    | RunWriter(t: nat, fail: Option<nat>, kill: Option<nat>)
    | RunReader(t: nat, fail: Option<nat>, killed: bool)
    | Close(writable: bool)
    | Kill(t: nat)

  ghost predicate Enabled(s: State, e: Event) {
    && Shape(s.p)
    && match e
       case BeginWrite(t, _) => t !in s.calls
       case BeginRead(t, _) => t !in s.calls
       case RunWriter(t, _, _) => t in s.calls && s.calls[t].Writing? && s.calls[t].i <= |s.calls[t].src|
           && t !in s.sleepW
       case RunReader(t, _, _) => t in s.calls && s.calls[t].Reading? && t !in s.sleepR
       case Close(_) => true
       case Kill(_) => true
  }

  ghost function AfterWriter(s: State, t: nat, fail: Option<nat>, kill: Option<nat>): State
    requires Enabled(s, RunWriter(t, fail, kill))
  {
    var c := s.calls[t];
    var (q, j, out) := WriteLoop(s.p, c.src, c.i, fail, kill);
    var s' := s.(p := q, accepted := s.accepted + c.src[c.i..j]);
    match out
    case Finished => s'.(sleepR := {}, calls := s.calls - {t})
    case Blocked => s'.(sleepR := {}, sleepW := s.sleepW + {t}, calls := s.calls[t := c.(i := j)])
    case Gone => s'.(calls := s.calls - {t})
  }

  ghost function AfterReader(s: State, t: nat, fail: Option<nat>, killed: bool): State
    requires Enabled(s, RunReader(t, fail, killed))
  {
    if Empty(s.p) && s.p.writeopen then
      if killed then s.(calls := s.calls - {t}) else s.(sleepR := s.sleepR + {t})
    else
      var (q, k, bytes) := ReadLoop(s.p, s.calls[t].n, 0, fail);
      s.(p := q, consumed := s.consumed + bytes, sleepW := {}, calls := s.calls - {t})
  }

  ghost function Apply(s: State, e: Event): State
    requires Enabled(s, e)
  {
    match e
    case BeginWrite(t, src) => s.(calls := s.calls[t := Writing(src, 0)])
    case BeginRead(t, n) => s.(calls := s.calls[t := Reading(n)])
    case RunWriter(t, fail, kill) => AfterWriter(s, t, fail, kill)
    case RunReader(t, fail, killed) => AfterReader(s, t, fail, killed)
    case Close(true) => s.(p := s.p.(writeopen := false), sleepR := {})
    case Close(false) => s.(p := s.p.(readopen := false), sleepW := {})
    case Kill(t) => s.(sleepR := s.sleepR - {t}, sleepW := s.sleepW - {t})
  }

  // ---- bytes

  ghost predicate Inv(s: State) {
    && Flow(s.p, s.accepted, s.consumed)
    && (forall t :: t in s.calls && s.calls[t].Writing? ==> s.calls[t].i <= |s.calls[t].src|)
  }

  lemma StepKeeps(s: State, e: Event)
    requires Inv(s) && Enabled(s, e)
    ensures Inv(Apply(s, e))
  {
    match e
    case RunWriter(t, fail, kill) =>
      var c := s.calls[t];
      WriteFlows(s.p, c.src, c.i, fail, kill, s.accepted, s.consumed);
    case RunReader(t, fail, killed) =>
      if !(Empty(s.p) && s.p.writeopen) { ReadFlows(s.p, s.calls[t].n, 0, fail, s.accepted, s.consumed); }
    case Close(w) =>
      forall k | |s.consumed| <= k < |s.accepted|
        ensures Held(Apply(s, e).p, s.accepted, k) { assert Held(s.p, s.accepted, k); }
    case _ =>
  }

  ghost predicate Init(s: State) {
    && Shape(s.p) && s.p.nread == s.p.nwrite == 0 && s.p.readopen && s.p.writeopen
    && s.calls == map[] && s.sleepR == {} && s.sleepW == {} && s.accepted == [] && s.consumed == []
  }

  ghost predicate Step(states: seq<State>, events: seq<Event>, i: nat)
    requires i < |events| && |states| == |events| + 1
  {
    Enabled(states[i], events[i]) && states[i + 1] == Apply(states[i], events[i])
  }

  ghost predicate Run(states: seq<State>, events: seq<Event>) {
    && |states| == |events| + 1 && Init(states[0])
    && (forall i {:trigger Step(states, events, i)} :: 0 <= i < |events| ==> Step(states, events, i))
  }

  lemma {:induction false} RunKeeps(states: seq<State>, events: seq<Event>, i: nat)
    requires Run(states, events) && i < |states|
    ensures Inv(states[i])
  {
    if i > 0 {
      RunKeeps(states, events, i - 1);
      assert Step(states, events, i - 1);
      StepKeeps(states[i - 1], events[i - 1]);
    }
  }

  /** The bytes in the ring, oldest first. */
  ghost function Buffered(p: Ring, from: nat, n: nat): (r: seq<Byte>)
    requires Shape(p)
    ensures |r| == n
    decreases n
  {
    if n == 0 then [] else [p.data[from % PIPESIZE]] + Buffered(p, from + 1, n - 1)
  }

  /** How many bytes the counters say are buffered. */
  function Count(p: Ring): nat { (p.nwrite - p.nread) % UINT }

  /** In every state of every run, the bytes consumed followed by the bytes buffered are the bytes accepted, and at most
      512 are buffered, whether or not the 32-bit counters have wrapped. */
  lemma NothingLost(states: seq<State>, events: seq<Event>, i: nat)
    requires Run(states, events) && i < |states|
    ensures Shape(states[i].p) && Count(states[i].p) <= PIPESIZE
    ensures states[i].consumed + Buffered(states[i].p, states[i].p.nread, Count(states[i].p)) == states[i].accepted
  {
    var s := states[i];
    RunKeeps(states, events, i);
    CountIs(|s.consumed|, |s.accepted|);
    BufferedIs(s.p, s.accepted, |s.consumed|);
    BufferedWrap(s.p, |s.consumed|, Count(s.p));
    assert s.consumed + s.accepted[|s.consumed|..] == s.accepted;
  }

  lemma CountIs(r: nat, w: nat)
    requires r <= w <= r + PIPESIZE
    ensures (w % UINT - r % UINT) % UINT == w - r
  {
  }

  lemma {:induction false} BufferedIs(p: Ring, accepted: seq<Byte>, from: nat)
    requires Shape(p) && from <= |accepted|
    requires forall k {:trigger Held(p, accepted, k)} :: from <= k < |accepted| ==> Held(p, accepted, k)
    ensures Buffered(p, from, |accepted| - from) == accepted[from..]
    decreases |accepted| - from
  {
    if from < |accepted| {
      assert Held(p, accepted, from);
      BufferedIs(p, accepted, from + 1);
    }
  }

  lemma {:induction false} BufferedWrap(p: Ring, from: nat, n: nat)
    requires Shape(p)
    ensures Buffered(p, from % UINT, n) == Buffered(p, from, n)
    decreases n
  {
    if n > 0 {
      Slots(0, from);
      BufferedWrap(p, from % UINT + 1, n - 1);
      BufferedWrap(p, from + 1, n - 1);
    }
  }

  // ---- sleepers

  /** While the lock is free, a reader asleep means an empty pipe that may still be written, and a writer asleep means a
      full pipe that may still be read. */
  predicate Sleepers(s: State) {
    && (s.sleepR != {} ==> Empty(s.p) && s.p.writeopen)
    && (s.sleepW != {} ==> Full(s.p) && s.p.readopen)
  }

  /** A writer sees it was killed after storing at least one byte since taking the lock, while a reader sleeps. */
  predicate KilledMidWrite(s: State, e: Event) {
    && e.RunWriter? && e.t in s.calls && s.calls[e.t].Writing? && s.sleepR != {} && s.p.readopen && e.kill.Some?
    && s.calls[e.t].i < e.kill.value < |s.calls[e.t].src| && e.kill.value - s.calls[e.t].i <= PIPESIZE
    && (e.fail.Some? ==> e.fail.value < s.calls[e.t].i || e.kill.value <= e.fail.value)
  }

  /** When pipewrite gives up after storing bytes: exactly when the kill comes before the room, the source or a fault
      ends it. */
  lemma {:induction false} GoneAfter(p: Ring, src: seq<Byte>, i: nat, fail: Option<nat>, kill: Option<nat>,
                                     accepted: seq<Byte>, consumed: seq<Byte>)
    requires Flow(p, accepted, consumed) && i <= |src|
    ensures var (q, j, out) := WriteLoop(p, src, i, fail, kill);
            out == Gone && j > i <==>
              && p.readopen && kill.Some? && i < kill.value < |src|
              && kill.value - i <= PIPESIZE - (|accepted| - |consumed|)
              && (fail.Some? ==> fail.value < i || kill.value <= fail.value)
    decreases |src| - i
  {
    Occupancy(p, accepted, consumed);
    if !(i == |src| || !p.readopen || (kill.Some? && kill.value <= i) || Full(p) || fail == Some(i)) {
      PutFlows(p, accepted, consumed, src[i]);
      GoneAfter(Put(p, src[i]), src, i + 1, fail, kill, accepted + [src[i]], consumed);
      if kill == Some(i + 1) && i + 1 < |src| { assert WriteLoop(Put(p, src[i]), src, i + 1, fail, kill).2 == Gone; }
    }
  }

  lemma WriterSleepers(s: State, t: nat, fail: Option<nat>, kill: Option<nat>)
    requires Inv(s) && Sleepers(s) && Enabled(s, RunWriter(t, fail, kill))
    ensures Sleepers(AfterWriter(s, t, fail, kill)) <==> !KilledMidWrite(s, RunWriter(t, fail, kill))
  {
    var c := s.calls[t];
    WriteFlows(s.p, c.src, c.i, fail, kill, s.accepted, s.consumed);
    GoneAfter(s.p, c.src, c.i, fail, kill, s.accepted, s.consumed);
    Occupancy(s.p, s.accepted, s.consumed);
    var (q, j, out) := WriteLoop(s.p, c.src, c.i, fail, kill);
    Occupancy(q, s.accepted + c.src[c.i..j], s.consumed);
  }

  lemma StepSleepers(s: State, e: Event)
    requires Inv(s) && Sleepers(s) && Enabled(s, e)
    ensures Sleepers(Apply(s, e)) <==> !KilledMidWrite(s, e)
  {
    match e
    case RunWriter(t, fail, kill) => WriterSleepers(s, t, fail, kill);
    case RunReader(t, fail, killed) =>
      if !(Empty(s.p) && s.p.writeopen) { ReadFlows(s.p, s.calls[t].n, 0, fail, s.accepted, s.consumed); }
    case _ =>
  }

  /** Over a whole run: nobody ever sleeps in vain exactly when no writer is killed in the middle of a write. */
  lemma {:induction false} SleepersUntil(states: seq<State>, events: seq<Event>, n: nat)
    requires Run(states, events) && n < |states|
    ensures (forall i {:trigger Sleepers(states[i])} :: 0 <= i <= n ==> Sleepers(states[i])) <==>
            (forall i {:trigger KilledMidWrite(states[i], events[i])} :: 0 <= i < n ==>
                !KilledMidWrite(states[i], events[i]))
  {
    if n > 0 {
      SleepersUntil(states, events, n - 1);
      RunKeeps(states, events, n - 1);
      assert Step(states, events, n - 1);
      if Sleepers(states[n - 1]) { StepSleepers(states[n - 1], events[n - 1]); }
    }
  }

  // ---- pipeclose

  function Closed(events: seq<Event>, i: nat, writable: bool): bool
    requires i <= |events|
  {
    i > 0 && (events[i - 1] == Close(writable) || Closed(events, i - 1, writable))
  }

  /** An end is open until pipeclose of it. Once the write end is closed no reader sleeps any more, and once the read
      end is closed no writer. */
  lemma {:induction false} CloseStays(states: seq<State>, events: seq<Event>, i: nat)
    requires Run(states, events) && i < |states|
    ensures states[i].p.writeopen <==> !Closed(events, i, true)
    ensures states[i].p.readopen <==> !Closed(events, i, false)
    ensures Closed(events, i, true) ==> states[i].sleepR == {}
    ensures Closed(events, i, false) ==> states[i].sleepW == {}
  {
    if i > 0 {
      CloseStays(states, events, i - 1);
      assert Step(states, events, i - 1);
      RunKeeps(states, events, i - 1);
      StepEnds(states[i - 1], events[i - 1]);
    }
  }

  lemma StepEnds(s: State, e: Event)
    requires Inv(s) && Enabled(s, e)
    ensures var s' := Apply(s, e);
      && s'.p.writeopen == (s.p.writeopen && e != Close(true)) && s'.p.readopen == (s.p.readopen && e != Close(false))
      && (e == Close(true) || (!s.p.writeopen && s.sleepR == {}) ==> s'.sleepR == {})
      && (e == Close(false) || (!s.p.readopen && s.sleepW == {}) ==> s'.sleepW == {})
  {
    match e
    case RunWriter(t, fail, kill) =>
      var c := s.calls[t];
      WriteFlows(s.p, c.src, c.i, fail, kill, s.accepted, s.consumed);
    case RunReader(t, fail, killed) =>
      if !(Empty(s.p) && s.p.writeopen) { ReadFlows(s.p, s.calls[t].n, 0, fail, s.accepted, s.consumed); }
    case _ =>
  }

  // ---- who sleeps

  /** pipewrite wakes readers before it sleeps and when it returns, but not when it returns -1. */
  ghost predicate WakesReaders(s: State, e: Event) {
    && e.RunWriter? && Enabled(s, e)
    && var c := s.calls[e.t]; WriteLoop(s.p, c.src, c.i, e.fail, e.kill).2 != Gone
  }

  /** t sleeps in piperead: it found the pipe empty and open, and has not been woken since. */
  ghost function Awaits(states: seq<State>, events: seq<Event>, i: nat, t: nat): bool
    requires |states| == |events| + 1 && i <= |events|
  {
    i > 0
    && var s, e := states[i - 1], events[i - 1];
       if e.RunReader? && e.t == t then s.consumed == s.accepted && !Closed(events, i - 1, true) && !e.killed
       else Awaits(states, events, i - 1, t) && e != Kill(t) && e != Close(true) && !WakesReaders(s, e)
  }

  /** t sleeps in pipewrite: it ended with the pipe full, and has not been woken since. */
  ghost function Stalls(states: seq<State>, events: seq<Event>, i: nat, t: nat): bool
    requires |states| == |events| + 1 && i <= |events|
  {
    i > 0
    && var s, e := states[i - 1], events[i - 1];
       if e.RunWriter? && e.t == t then
         Enabled(s, e) && WriteLoop(s.p, s.calls[t].src, s.calls[t].i, e.fail, e.kill).2 == Blocked
       else
         && Stalls(states, events, i - 1, t) && e != Kill(t) && e != Close(false)
         && !(e.RunReader? && (s.consumed != s.accepted || Closed(events, i - 1, true)))
  }

  /** Who sleeps: from the call that had to wait to the next that goes through on the other side, to pipeclose there, or
      to kill. */
  lemma {:induction false} SleepsExactly(states: seq<State>, events: seq<Event>, i: nat, t: nat)
    requires Run(states, events) && i <= |events|
    ensures t in states[i].sleepR <==> Awaits(states, events, i, t)
    ensures t in states[i].sleepW <==> Stalls(states, events, i, t)
  {
    if i > 0 {
      SleepsExactly(states, events, i - 1, t);
      assert Step(states, events, i - 1);
      RunKeeps(states, events, i - 1);
      CloseStays(states, events, i - 1);
      Occupancy(states[i - 1].p, states[i - 1].accepted, states[i - 1].consumed);
    }
  }

  // ---- one call

  /** The bytes thread t has put in since it called pipewrite. */
  ghost function PutBy(states: seq<State>, events: seq<Event>, i: nat, t: nat): seq<Byte>
    requires |states| == |events| + 1 && i <= |events|
  {
    if i == 0 || (events[i - 1].BeginWrite? && events[i - 1].t == t) then []
    else if events[i - 1].RunWriter? && events[i - 1].t == t && |states[i - 1].accepted| <= |states[i].accepted| then
      PutBy(states, events, i - 1, t) + states[i].accepted[|states[i - 1].accepted|..]
    else PutBy(states, events, i - 1, t)
  }

  /** The bytes it called pipewrite with. */
  function Called(events: seq<Event>, i: nat, t: nat): seq<Byte>
    requires i <= |events|
  {
    if i == 0 then []
    else if events[i - 1].BeginWrite? && events[i - 1].t == t then events[i - 1].src
    else Called(events, i - 1, t)
  }

  /** A thread inside pipewrite has put in the first bytes of what it was called with, as many as it counts. */
  lemma {:induction false} WriterSoFar(states: seq<State>, events: seq<Event>, i: nat, t: nat)
    requires Run(states, events) && i <= |events| && t in states[i].calls && states[i].calls[t].Writing?
    ensures var c := states[i].calls[t];
      c.src == Called(events, i, t) && c.i <= |c.src| && PutBy(states, events, i, t) == c.src[..c.i]
  {
    RunKeeps(states, events, i);
    assert i > 0 && Step(states, events, i - 1);
    var s, e := states[i - 1], events[i - 1];
    if !(e.BeginWrite? && e.t == t) {
      WriterSoFar(states, events, i - 1, t);
      if e.RunWriter? && e.t == t { WriterAdds(states, events, i - 1, t); }
    }
  }

  lemma WriterAdds(states: seq<State>, events: seq<Event>, i: nat, t: nat)
    requires Run(states, events) && i < |events| && events[i].RunWriter? && events[i].t == t
    requires t in states[i].calls && states[i].calls[t].Writing? && states[i].calls[t].i <= |states[i].calls[t].src|
    requires PutBy(states, events, i, t) == states[i].calls[t].src[..states[i].calls[t].i]
    ensures Shape(states[i].p)
    ensures var c := states[i].calls[t];
      var j := WriteLoop(states[i].p, c.src, c.i, events[i].fail, events[i].kill).1;
      PutBy(states, events, i + 1, t) == c.src[..j]
  {
    assert Step(states, events, i);
    var c := states[i].calls[t];
    var j := WriteLoop(states[i].p, c.src, c.i, events[i].fail, events[i].kill).1;
    assert states[i + 1].accepted == states[i].accepted + c.src[c.i..j];
    assert c.src[..c.i] + c.src[c.i..j] == c.src[..j];
  }

  /** pipewrite returns when all it was called with is in the pipe; or when the source cannot be read at the byte it
      stops at; or, with -1, when the read end is closed or the process was killed. */
  lemma WriterReturns(states: seq<State>, events: seq<Event>, i: nat, t: nat)
    requires Run(states, events) && i < |events| && events[i].RunWriter? && events[i].t == t
    requires t !in states[i + 1].calls
    ensures var src, put := Called(events, i, t), PutBy(states, events, i + 1, t);
      && put <= src
      && (put == src || events[i].fail == Some(|put|) || Closed(events, i, false)
          || (events[i].kill.Some? && events[i].kill.value <= |put|))
  {
    assert Step(states, events, i);
    WriterSoFar(states, events, i, t);
    RunKeeps(states, events, i);
    var s, e := states[i], events[i];
    var c := s.calls[t];
    WriterAdds(states, events, i, t);
    WriteFlows(s.p, c.src, c.i, e.fail, e.kill, s.accepted, s.consumed);
    CloseStays(states, events, i);
  }

  function Min(a: nat, b: nat): nat { if a < b then a else b }

  /** piperead returns as many bytes as it was asked for or there are, the oldest first; it waits while there is none
      and the write end is open, unless it was killed, and returns none once it is closed. */
  lemma ReaderReturns(states: seq<State>, events: seq<Event>, i: nat, t: nat, killed: bool)
    requires Run(states, events) && i < |events| && events[i] == RunReader(t, None, killed)
    ensures var s, s' := states[i], states[i + 1];
      && t in s.calls && s.calls[t].Reading? && |s.consumed| <= |s.accepted|
      && if s.consumed == s.accepted && !Closed(events, i, true) then
           s'.consumed == s.consumed && if killed then t !in s'.calls else t in s'.calls && t in s'.sleepR
         else
           && t !in s'.calls
           && s'.consumed == s.accepted[..|s.consumed| + Min(s.calls[t].n, |s.accepted| - |s.consumed|)]
  {
    assert Step(states, events, i);
    RunKeeps(states, events, i);
    CloseStays(states, events, i);
    var s := states[i];
    Occupancy(s.p, s.accepted, s.consumed);
    if !(Empty(s.p) && s.p.writeopen) { ReadsOldest(s.p, s.calls[t].n, s.accepted, s.consumed); }
  }

  lemma ReadsOldest(p: Ring, n: nat, accepted: seq<Byte>, consumed: seq<Byte>)
    requires Flow(p, accepted, consumed)
    ensures consumed + ReadLoop(p, n, 0, None).2 == accepted[..|consumed| + Min(n, |accepted| - |consumed|)]
  {
    ReadFlows(p, n, 0, None, accepted, consumed);
    var (q, k, bytes) := ReadLoop(p, n, 0, None);
    Occupancy(q, accepted, consumed + bytes);
  }

  predicate NoKill(e: Event) {
    !e.Kill? && (e.RunWriter? ==> e.kill.None?) && (e.RunReader? ==> !e.killed)
  }

  lemma NoKillNoStranding(states: seq<State>, events: seq<Event>, i: nat)
    requires Run(states, events) && i < |states| && forall k :: 0 <= k < |events| ==> NoKill(events[k])
    ensures Sleepers(states[i])
  {
    SleepersUntil(states, events, i);
  }

  /** A reader sleeps on an empty pipe; a writer of two bytes is killed after the first: the reader sleeps on, a byte
      waiting. */
  lemma KillStrandsReader() returns (states: seq<State>, events: seq<Event>)
    ensures Run(states, events) && !Sleepers(states[|events|])
  {
    var p := Ring(seq(PIPESIZE, i => 0), 0, 0, true, true);
    var s0 := State(p, map[], {}, {}, [], []);
    events := [BeginRead(1, 1), RunReader(1, None, false), BeginWrite(2, [7, 8]), RunWriter(2, None, Some(1))];
    var s1 := Apply(s0, events[0]);
    var s2 := Apply(s1, events[1]);
    var s3 := Apply(s2, events[2]);
    var s4 := Apply(s3, events[3]);
    states := [s0, s1, s2, s3, s4];
    assert KilledMidWrite(s3, events[3]);
    assert forall i {:trigger Step(states, events, i)} :: 0 <= i < 4 ==> Step(states, events, i);
    SleepersUntil(states, events, 4);
    RunKeeps(states, events, 3);
    StepSleepers(s3, events[3]);
  }

  // ---- the code

  class PipeBuffer {
    const data: array<Byte>
    var nread: nat
    var nwrite: nat
    var readopen: bool
    var writeopen: bool

    ghost predicate Valid()
      reads this
    {
      data.Length == PIPESIZE && nread < UINT && nwrite < UINT
    }

    ghost function R(): Ring
      reads this, data
    {
      Ring(data[..], nread, nwrite, readopen, writeopen)
    }

    constructor ()
      ensures Valid() && fresh(data) && nread == nwrite == 0 && readopen && writeopen
    {
      data := new Byte[PIPESIZE](i => 0);
      nread, nwrite, readopen, writeopen := 0, 0, true, true;
    }

    /** One hold of the lock in pipewrite: the out-parameters are the count so far and how the writer leaves. */
    method Write(src: seq<Byte>, from: nat, fail: Option<nat>, kill: Option<nat>) returns (i: nat, out: Outcome)
      requires Valid() && from <= |src|
      modifies this, data
      ensures Valid() && (R(), i, out) == old(WriteLoop(R(), src, from, fail, kill))
    {
      i := from;
      while i < |src|
        invariant from <= i <= |src| && Valid()
        invariant WriteLoop(R(), src, i, fail, kill) == old(WriteLoop(R(), src, from, fail, kill))
      {
        if !readopen || (kill.Some? && kill.value <= i) { return i, Gone; }
        if nwrite == (nread + PIPESIZE) % UINT { return i, Blocked; }
        if fail == Some(i) { return i, Finished; }
        ghost var r := R();
        data[nwrite % PIPESIZE] := src[i];
        nwrite := (nwrite + 1) % UINT;
        assert R() == Put(r, src[i]);
        i := i + 1;
      }
      out := Finished;
    }

    /** One hold of the lock in piperead, past the wait: the count returned and the bytes taken. */
    method Read(n: nat, fail: Option<nat>) returns (i: nat, bytes: seq<Byte>)
      requires Valid()
      modifies this
      ensures Valid() && (R(), i, bytes) == old(ReadLoop(R(), n, 0, fail))
    {
      i, bytes := 0, [];
      ghost var all := ReadLoop(R(), n, 0, fail);
      assert all.2 == bytes + all.2;
      while i < n
        invariant 0 <= i <= n && Valid()
        invariant Resumes(all, R(), n, i, fail, bytes)
      {
        if nread == nwrite { break; }
        ghost var r := R();
        var ch := data[nread % PIPESIZE];
        nread := (nread + 1) % UINT;
        ResumesNext(all, r, n, i, fail, bytes);
        bytes := bytes + [ch];
        if fail == Some(i) { return; }
        i := i + 1;
      }
      assert bytes + [] == bytes;
    }
  }

  /** The loop from i on, after the bytes taken so far, is the whole loop. */
  ghost predicate Resumes(all: (Ring, nat, seq<Byte>), p: Ring, n: nat, i: nat, fail: Option<nat>, bytes: seq<Byte>)
    requires Shape(p) && i <= n
  {
    var r := ReadLoop(p, n, i, fail);
    all.0 == r.0 && all.1 == r.1 && all.2 == bytes + r.2
  }

  lemma ResumesNext(all: (Ring, nat, seq<Byte>), p: Ring, n: nat, i: nat, fail: Option<nat>, bytes: seq<Byte>)
    requires Shape(p) && i < n && !Empty(p) && Resumes(all, p, n, i, fail, bytes)
    ensures var ch, p' := p.data[p.nread % PIPESIZE], p.(nread := (p.nread + 1) % UINT);
            if fail == Some(i) then all == (p', i, bytes + [ch]) else Resumes(all, p', n, i + 1, fail, bytes + [ch])
  {
    var ch, p' := p.data[p.nread % PIPESIZE], p.(nread := (p.nread + 1) % UINT);
    if fail != Some(i) {
      var s := ReadLoop(p', n, i + 1, fail).2;
      assert bytes + ([ch] + s) == bytes + [ch] + s;
    }
  }
}
