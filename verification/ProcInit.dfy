/** procinit of kernel/proc.c: the boot CPU adds every process slot to the unused list, one call after another. */
module ProcInit {
  import opened ProcLists

  const UNUSED_LIST: nat := 0

  /** How many calls have begun. */
  function Starts(events: seq<Event>): nat {
    if events == [] then 0
    else Starts(events[..|events| - 1]) + if events[|events| - 1].Start? then 1 else 0
  }

  /** One thread does it all, and its calls add slots 0, 1, 2 and so on. */
  ghost predicate Adds(events: seq<Event>) {
    forall i :: 0 <= i < |events| ==>
      events[i].t == 0 && (events[i].Start? ==> events[i] == Start(0, Add, UNUSED_LIST, Starts(events[..i])))
  }

  /** The calls of procinit, from initlists up to the last return. */
  ghost predicate Procinit(states: seq<State>, events: seq<Event>) {
    Run(states, events) && Adds(events) && Starts(events) == NPROC && states[|events|].calls == map[]
  }

  function Upto(k: nat): (s: seq<nat>)
    ensures |s| == k && forall i :: 0 <= i < k ==> s[i] == i
  {
    seq(k, i requires 0 <= i < k => i)
  }

  // ---- what is on the lists

  ghost predicate Filled(abs: seq<seq<nat>>, k: nat) {
    |abs| == NLISTS && abs[UNUSED_LIST] == Upto(k) && forall l :: 0 <= l < NLISTS && l != UNUSED_LIST ==> abs[l] == []
  }

  /** k calls have begun; the last one may be under way. */
  ghost predicate Reached(s: State, k: nat) {
    if s.calls == map[] then Filled(s.m.abs, k)
    else
      && k > 0 && s.calls.Keys == {0} && Filled(s.m.abs, k - 1)
      && s.calls[0].kind == Add && s.calls[0].list == UNUSED_LIST && s.calls[0].idx == k - 1
  }

  lemma FilledMore(abs: seq<seq<nat>>, k: nat)
    requires Filled(abs, k)
    ensures Filled(abs[UNUSED_LIST := abs[UNUSED_LIST] + [k]], k + 1)
  {
    assert Upto(k) + [k] == Upto(k + 1);
  }

  lemma ReachedNext(s: State, e: Event, k: nat)
    requires Reached(s, k) && Enabled(s, e) && e.t == 0 && (e.Start? ==> e == Start(0, Add, UNUSED_LIST, k))
    ensures Reached(Apply(s, e), k + if e.Start? then 1 else 0)
  {
    var s' := Apply(s, e);
    if e.Start? {
      assert s.calls == map[];
    } else {
      assert !e.Unpeek? && !e.UnlinkFirst?;
      if e.Finish? || e.FinishEmpty? {
        FilledMore(s.m.abs, k - 1);
        assert s'.calls == map[];
      }
    }
  }

  lemma {:induction false} ReachedAlways(states: seq<State>, events: seq<Event>, i: nat)
    requires Run(states, events) && Adds(events) && i <= |events|
    ensures Reached(states[i], Starts(events[..i]))
  {
    if i > 0 {
      ReachedAlways(states, events, i - 1);
      assert events[..i][..i - 1] == events[..i - 1];
      ReachedNext(states[i - 1], events[i - 1], Starts(events[..i - 1]));
    }
  }

  /** However the calls ran, every slot is on the unused list in the end, in order, and nothing is on the other
      lists. */
  lemma AllUnused(states: seq<State>, events: seq<Event>)
    requires Procinit(states, events)
    ensures Filled(states[|events|].m.abs, NPROC) && Inv(states[|events|])
  {
    ReachedAlways(states, events, |events|);
    assert events[..|events|] == events;
    RunKeeps(states, events, |events|);
  }

  // ---- and there is such a run

  lemma Extend(states: seq<State>, events: seq<Event>, e: Event) returns (states': seq<State>, events': seq<Event>)
    requires Run(states, events) && Adds(events) && Enabled(states[|events|], e)
    requires e.t == 0 && (e.Start? ==> e == Start(0, Add, UNUSED_LIST, Starts(events)))
    ensures Run(states', events') && Adds(events') && states'[|events'|] == Apply(states[|events|], e)
    ensures Starts(events') == Starts(events) + if e.Start? then 1 else 0
  {
    states', events' := states + [Apply(states[|events|], e)], events + [e];
    AddsMore(events, e);
  }

  lemma AddsMore(events: seq<Event>, e: Event)
    requires Adds(events) && e.t == 0 && (e.Start? ==> e == Start(0, Add, UNUSED_LIST, Starts(events)))
    ensures Adds(events + [e]) && Starts(events + [e]) == Starts(events) + if e.Start? then 1 else 0
  {
    var events' := events + [e];
    assert events'[..|events|] == events;
    forall i | 0 <= i < |events'|
      ensures events'[i].t == 0
              && (events'[i].Start? ==> events'[i] == Start(0, Add, UNUSED_LIST, Starts(events'[..i])))
    {
      if i < |events| { assert events'[..i] == events[..i]; }
    }
  }

  /** Everything known of the state such a run has come to. */
  lemma Now(states: seq<State>, events: seq<Event>) returns (s: State)
    requires Run(states, events) && Adds(events)
    ensures s == states[|events|] && Inv(s) && Reached(s, Starts(events))
  {
    s := states[|events|];
    RunKeeps(states, events, |events|);
    ReachedAlways(states, events, |events|);
    assert events[..|events|] == events;
  }

  lemma Linked(s: State, k: nat, j: nat)
    requires Inv(s) && Filled(s.m.abs, k) && j < k <= NPROC
    ensures s.m.next[j] == if j + 1 < k then j + 1 else -1
  {
    assert LinkOk(s.m.next, s.m.abs[UNUSED_LIST], j);
  }

  /** An add at slot j holds no lock before it. */
  predicate IsAt(pc: Pc, j: nat) {
    pc.At? && pc.prev == -1 && pc.curr == j
  }

  /** The call that adds slot k - 1 is at slot j of the list. */
  ghost predicate Walking(s: State, k: nat, j: nat) {
    && Inv(s) && Reached(s, k) && j + 1 < k <= NPROC
    && 0 in s.calls && IsAt(s.calls[0].pc, j)
  }

  lemma NextIs(s: State, k: nat, j: nat)
    requires Walking(s, k, j)
    ensures s.calls[0].pc.nxt == if j + 2 < k then j + 1 else -1
  {
    assert CallOk(s.m, s.calls[0]);
    Linked(s, k - 1, j);
  }

  lemma WalksOn(s: State, k: nat, j: nat)
    requires Walking(s, k, j) && j + 2 < k
    ensures Enabled(s, LockNext(0)) && Enabled(Apply(s, LockNext(0)), Advance(0))
    ensures var s' := Apply(Apply(s, LockNext(0)), Advance(0)); 0 in s'.calls && IsAt(s'.calls[0].pc, j + 1)
  {
    NextIs(s, k, j);
    assert Free(s, StateLock(j + 1));
  }

  lemma WalksEnd(s: State, k: nat, j: nat)
    requires Walking(s, k, j) && j + 2 == k
    ensures Enabled(s, LockSelf(0)) && Enabled(Apply(s, LockSelf(0)), Finish(0))
    ensures Apply(Apply(s, LockSelf(0)), Finish(0)).calls == map[]
  {
    NextIs(s, k, j);
    assert Free(s, StateLock(k - 1));
    var s1 := Apply(s, LockSelf(0));
    assert s1.calls.Keys == {0} && Apply(s1, Finish(0)).calls.Keys == {};
  }

  /** The call walks to the end of the list, and appends its slot. */
  lemma {:induction false} Walk(states: seq<State>, events: seq<Event>, j: nat)
      returns (states': seq<State>, events': seq<Event>)
    requires Run(states, events) && Adds(events) && j + 1 < Starts(events) <= NPROC
    requires 0 in states[|events|].calls && IsAt(states[|events|].calls[0].pc, j)
    ensures Run(states', events') && Adds(events') && Starts(events') == Starts(events)
            && states'[|events'|].calls == map[]
    decreases Starts(events) - j
  {
    var k := Starts(events);
    var s := Now(states, events);
    if j + 2 < k {
      WalksOn(s, k, j);
      states', events' := Extend(states, events, LockNext(0));
      states', events' := Extend(states', events', Advance(0));
      states', events' := Walk(states', events', j + 1);
    } else {
      WalksEnd(s, k, j);
      states', events' := Extend(states, events, LockSelf(0));
      states', events' := Extend(states', events', Finish(0));
    }
  }

  /** A call has the list lock. */
  lemma Begin(states: seq<State>, events: seq<Event>) returns (states': seq<State>, events': seq<Event>)
    requires Run(states, events) && Adds(events) && Starts(events) < NPROC && states[|events|].calls == map[]
    ensures Run(states', events') && Adds(events') && Starts(events') == Starts(events) + 1
    ensures states'[|events'|] == State(states[|events|].m, map[0 := Call(Add, UNUSED_LIST, Starts(events), Locked)])
    ensures Inv(states[|events|]) && Filled(states[|events|].m.abs, Starts(events))
  {
    var s := Now(states, events);
    Begins(s, Starts(events));
    states', events' := Extend(states, events, Start(0, Add, UNUSED_LIST, Starts(events)));
    states', events' := Extend(states', events', LockList(0));
  }

  lemma Begins(s: State, k: nat)
    requires Inv(s) && s.calls == map[] && Filled(s.m.abs, k) && k < NPROC
    ensures Enabled(s, Start(0, Add, UNUSED_LIST, k)) && Enabled(Apply(s, Start(0, Add, UNUSED_LIST, k)), LockList(0))
    ensures Apply(Apply(s, Start(0, Add, UNUSED_LIST, k)), LockList(0)) ==
            State(s.m, map[0 := Call(Add, UNUSED_LIST, k, Locked)])
  {
    var s1 := Apply(s, Start(0, Add, UNUSED_LIST, k));
    assert s1.calls == map[0 := Call(Add, UNUSED_LIST, k, Want)];
    assert Apply(s1, LockList(0)).calls == map[0 := Call(Add, UNUSED_LIST, k, Locked)];
  }

  lemma FirstIs(s: State, k: nat)
    requires Inv(s) && s.calls == map[] && Filled(s.m.abs, k)
    ensures s.m.first[UNUSED_LIST] == if k == 0 then -1 else 0
  {
    assert HeadOk(s, UNUSED_LIST) && s.m.abs[UNUSED_LIST] == Upto(k);
  }

  /** One call. */
  lemma Insert(states: seq<State>, events: seq<Event>) returns (states': seq<State>, events': seq<Event>)
    requires Run(states, events) && Adds(events) && Starts(events) < NPROC && states[|events|].calls == map[]
    ensures Run(states', events') && Adds(events') && Starts(events') == Starts(events) + 1
            && states'[|events'|].calls == map[]
  {
    states', events' := Begin(states, events);
    FirstIs(states[|events|], Starts(events));
    if Starts(events) == 0 {
      states', events' := Extend(states', events', SetFirst(0));
      states', events' := Extend(states', events', FinishEmpty(0));
    } else {
      states', events' := Extend(states', events', LockFirst(0));
      states', events' := Walk(states', events', 0);
    }
  }

  lemma {:induction false} InsertAll(k: nat) returns (states: seq<State>, events: seq<Event>)
    requires k <= NPROC
    ensures Run(states, events) && Adds(events) && Starts(events) == k && states[|events|].calls == map[]
  {
    if k == 0 {
      states, events := [State(Lists(seq(NLISTS, i => -1), seq(NPROC, i => 0), seq(NLISTS, i => [])), map[])], [];
    } else {
      states, events := InsertAll(k - 1);
      states, events := Insert(states, events);
    }
  }

  /** procinit does not wait for anything: its run exists. */
  lemma ProcinitRuns() returns (states: seq<State>, events: seq<Event>)
    ensures Procinit(states, events)
  {
    states, events := InsertAll(NPROC);
  }
}
