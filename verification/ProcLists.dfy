/** The process lists of kernel/proc.c: eleven lists through one `next_index_in_list` field,
    changed by concurrent add_proc_to_list and remove_proc_from_list calls that lock hand over hand. */
module ProcLists {
  const NPROC: nat := 64
  const NCPU: nat := 8
  /** unusedList, zombieList, sleepingList and one runnable list per CPU. */
  const NLISTS: nat := 3 + NCPU

  datatype Lock = ListLock(l: nat) | StateLock(p: int)

  /** Peek is not a list call: allocproc and scheduler take the list lock to read l->first. */
  datatype Kind = Add | Remove | Peek

  /** Where a call stands between two acquires. `prev` is -1 when there is none, and `can` says that
      the list lock is still held (canRelease).
      EmptySet: an add to an empty list has stored l->first. First: a removal of the first element holds both locks.
      Both: the lock of `nxt` was just acquired. Ready: the lock of the moved index was just acquired. */
  datatype Pc =
    | Want
    | Locked
    | EmptySet
    | First
    | At(prev: int, curr: int, nxt: int, can: bool)
    | Both(prev: int, curr: int, nxt: int, can: bool)
    | Ready(prev: int, curr: int, can: bool)

  datatype Call = Call(kind: Kind, list: nat, idx: nat, pc: Pc)

  /** `abs` records the sequence each list stands for. */
  datatype Lists = Lists(first: seq<int>, next: seq<int>, abs: seq<seq<nat>>)

  datatype State = State(m: Lists, calls: map<nat, Call>)

  /** The locks a call holds at its program counter. */
  predicate Holds(c: Call, k: Lock) {
    match c.pc
    case Want => false
    case Locked => k == ListLock(c.list)
    case EmptySet => k == ListLock(c.list)
    case First => k == ListLock(c.list) || k == StateLock(c.idx)
    case At(prev, curr, nxt, can) => HoldsPath(c, k, prev, curr, can)
    case Both(prev, curr, nxt, can) => HoldsPath(c, k, prev, curr, can) || k == StateLock(nxt)
    case Ready(prev, curr, can) => HoldsPath(c, k, prev, curr, can) || k == StateLock(c.idx)
  }

  predicate HoldsPath(c: Call, k: Lock, prev: int, curr: int, can: bool) {
    k == StateLock(curr) || (prev >= 0 && k == StateLock(prev)) || (can && k == ListLock(c.list))
  }

  /** acquire succeeds when nobody holds the lock. */
  predicate Free(s: State, k: Lock) {
    forall t :: t in s.calls ==> !Holds(s.calls[t], k)
  }

  // ---- sequences

  ghost function IndexOf(s: seq<nat>, x: nat): (k: nat)
    requires x in s
    ensures k < |s| && s[k] == x
  {
    var k :| 0 <= k < |s| && s[k] == x;
    k
  }

  ghost function Delete(s: seq<nat>, x: nat): seq<nat>
    requires x in s
  {
    s[..IndexOf(s, x)] + s[IndexOf(s, x) + 1..]
  }

  // ---- steps

  datatype Event =
    | Start(t: nat, kind: Kind, list: nat, idx: nat)
    | Unpeek(t: nat)
    | LockList(t: nat)
    | SetFirst(t: nat)
    | FinishEmpty(t: nat)
    | TakeFirst(t: nat)
    | UnlinkFirst(t: nat)
    | LockFirst(t: nat)
    | LockNext(t: nat)
    | Advance(t: nat)
    | LockSelf(t: nat)
    | Finish(t: nat)

  ghost predicate Enabled(s: State, e: Event) {
    if e.Start? then
      && e.t !in s.calls && e.list < |s.m.abs| && e.idx < NPROC
      && (e.kind != Peek ==> forall u :: u in s.calls && s.calls[u].kind != Peek ==> s.calls[u].idx != e.idx)
      && (e.kind == Add ==> forall l :: 0 <= l < |s.m.abs| ==> e.idx !in s.m.abs[l])
      && (e.kind == Remove ==> e.idx in s.m.abs[e.list])
    else
      && e.t in s.calls && s.calls[e.t].list < |s.m.first| == |s.m.abs| && s.calls[e.t].idx < |s.m.next|
      && var c := s.calls[e.t];
         match e
         case Unpeek(_) => c.pc == Locked && c.kind == Peek
         case LockList(_) => c.pc == Want && Free(s, ListLock(c.list))
         case SetFirst(_) => c.pc == Locked && c.kind == Add && s.m.first[c.list] == -1
         case FinishEmpty(_) => c.pc == EmptySet && Free(s, StateLock(c.idx))
         case TakeFirst(_) =>
           c.pc == Locked && c.kind == Remove && s.m.first[c.list] == c.idx && Free(s, StateLock(c.idx))
         case UnlinkFirst(_) => c.pc == First && c.idx in s.m.abs[c.list]
         case LockFirst(_) =>
           && c.pc == Locked && c.kind != Peek && 0 <= s.m.first[c.list] < |s.m.next|
           && (c.kind == Remove ==> s.m.first[c.list] != c.idx) && Free(s, StateLock(s.m.first[c.list]))
         case LockNext(_) =>
           && c.pc.At? && 0 <= c.pc.nxt < |s.m.next|
           && (c.kind == Remove ==> c.pc.nxt != c.idx) && Free(s, StateLock(c.pc.nxt))
         case Advance(_) => c.pc.Both? && 0 <= c.pc.nxt < |s.m.next|
         case LockSelf(_) =>
           && c.pc.At? && Free(s, StateLock(c.idx))
           && c.pc.nxt == if c.kind == Add then -1 else c.idx
         case Finish(_) =>
           c.pc.Ready? && c.kind != Peek && 0 <= c.pc.curr < |s.m.next|
               && (c.kind == Remove ==> c.idx in s.m.abs[c.list])
  }

  function Goto(s: State, t: nat, pc: Pc): State
    requires t in s.calls
  {
    s.(calls := s.calls[t := s.calls[t].(pc := pc)])
  }

  /** The call returns, its list standing for `list`. */
  function Return(s: State, t: nat, list: seq<nat>): State
    requires t in s.calls && s.calls[t].list < |s.m.abs|
  {
    State(s.m.(abs := s.m.abs[s.calls[t].list := list]), s.calls - {t})
  }

  ghost function Apply(s: State, e: Event): State
    requires Enabled(s, e)
  {
    if e.Start? then s.(calls := s.calls[e.t := Call(e.kind, e.list, e.idx, Want)]) else
    var c := s.calls[e.t];
    match e
    case Unpeek(t) => s.(calls := s.calls - {t})
    case LockList(t) => Goto(s, t, Locked)
    case SetFirst(t) => Goto(s.(m := s.m.(first := s.m.first[c.list := c.idx])), t, EmptySet)
    case FinishEmpty(t) => Return(s.(m := s.m.(next := s.m.next[c.idx := -1])), t, s.m.abs[c.list] + [c.idx])
    case TakeFirst(t) => Goto(s, t, First)
    case UnlinkFirst(t) =>
      Return(s.(m := s.m.(first := s.m.first[c.list := s.m.next[c.idx]], next := s.m.next[c.idx := -1])),
             t, Delete(s.m.abs[c.list], c.idx))
    case LockFirst(t) => Goto(s, t, At(-1, s.m.first[c.list], s.m.next[s.m.first[c.list]], true))
    case LockNext(t) => Goto(s, t, Both(c.pc.prev, c.pc.curr, c.pc.nxt, c.pc.can))
    case Advance(t) =>
      Goto(s, t, At(if c.kind == Remove then c.pc.curr else -1, c.pc.nxt, s.m.next[c.pc.nxt], false))
    case LockSelf(t) => Goto(s, t, Ready(c.pc.prev, c.pc.curr, c.pc.can))
    case Finish(t) =>
      if c.kind == Add then
        Return(s.(m := s.m.(next := s.m.next[c.pc.curr := c.idx as int][c.idx := -1])), t, s.m.abs[c.list] + [c.idx])
      else
        Return(s.(m := s.m.(next := s.m.next[c.pc.curr := s.m.next[c.idx]][c.idx := -1])), t,
               Delete(s.m.abs[c.list], c.idx))
  }

  // ---- the invariant

  /** Element i of the list points to its successor, the last one to -1. */
  ghost predicate LinkOk(next: seq<int>, s: seq<nat>, i: nat)
    requires i < |s| && s[i] < |next|
  {
    next[s[i]] == if i + 1 < |s| then s[i + 1] else -1
  }

  function Head(s: seq<nat>): int {
    if s == [] then -1 else s[0]
  }

  /** The next fields chain exactly `s`, ending in -1. */
  ghost predicate Chain(next: seq<int>, s: seq<nat>) {
    && |next| == NPROC
    && (forall i :: 0 <= i < |s| ==> s[i] < NPROC)
    && (forall i {:trigger LinkOk(next, s, i)} :: 0 <= i < |s| ==> LinkOk(next, s, i))
  }

  /** No index occurs twice, in one list or in two. */
  ghost predicate Disjoint(abs: seq<seq<nat>>) {
    && (forall l :: 0 <= l < |abs| ==> NoDup(abs[l]))
    && (forall l, l', x :: 0 <= l < |abs| && 0 <= l' < |abs| && l != l' && x in abs[l] ==> x !in abs[l'])
  }

  ghost predicate NoDup(s: seq<nat>) {
    forall i, j :: 0 <= i < j < |s| ==> s[i] != s[j]
  }

  ghost predicate Before(s: seq<nat>, a: int, b: int) {
    exists i, j :: 0 <= i < j < |s| && s[i] == a && s[j] == b
  }

  /** Call c is between the two stores of an add to the empty list l. */
  ghost predicate HalfAdded(calls: map<nat, Call>, l: nat) {
    exists t :: t in calls && calls[t].pc == EmptySet && calls[t].list == l
  }

  ghost predicate HeadOk(s: State, l: nat)
    requires l < |s.m.first| && l < |s.m.abs|
  {
    s.m.first[l] == Head(s.m.abs[l]) || HalfAdded(s.calls, l)
  }

  ghost predicate ChainsOk(m: Lists) {
    && |m.first| == |m.abs| == NLISTS && |m.next| == NPROC
    && (forall l :: 0 <= l < NLISTS ==> Chain(m.next, m.abs[l]))
    && Disjoint(m.abs)
  }

  ghost predicate ListsOk(s: State) {
    && ChainsOk(s.m)
    && (forall l :: 0 <= l < NLISTS ==> HeadOk(s, l))
  }

  ghost predicate PcOk(m: Lists, c: Call)
    requires c.list < |m.abs| == |m.first|
  {
    var list := m.abs[c.list];
    match c.pc
    case Want => true
    case Locked => true
    case EmptySet => c.kind == Add && list == [] && m.first[c.list] == c.idx
    case First => c.kind == Remove && m.first[c.list] == c.idx
    case At(prev, curr, nxt, can) => CursorOk(m, c, curr) && nxt == m.next[curr]
    case Both(prev, curr, nxt, can) =>
      && CursorOk(m, c, curr) && nxt == m.next[curr] && 0 <= nxt < NPROC
      && (c.kind == Remove ==> nxt != c.idx)
    case Ready(prev, curr, can) =>
      && CursorOk(m, c, curr)
      && m.next[curr] == if c.kind == Add then -1 else c.idx
  }

  /** The cursor is on the list, and a removal's target lies beyond it. */
  ghost predicate CursorOk(m: Lists, c: Call, curr: int)
    requires c.list < |m.abs|
  {
    && 0 <= curr < NPROC == |m.next| && curr in m.abs[c.list]
    && (c.kind == Remove ==> Before(m.abs[c.list], curr, c.idx))
  }

  ghost predicate CallOk(m: Lists, c: Call)
    requires |m.first| == |m.abs| == NLISTS
  {
    && c.list < NLISTS && c.idx < NPROC
    && (c.kind == Add ==> forall l :: 0 <= l < NLISTS ==> c.idx !in m.abs[l])
    && (c.kind == Remove ==> c.idx in m.abs[c.list])
    && (c.kind == Peek ==> c.pc == Want || c.pc == Locked)
    && PcOk(m, c)
  }

  ghost predicate Exclusive(calls: map<nat, Call>) {
    forall t, u, k :: t in calls && u in calls && t != u && Holds(calls[t], k) ==> !Holds(calls[u], k)
  }

  ghost predicate Inv(s: State) {
    && ListsOk(s)
    && (forall t :: t in s.calls ==> CallOk(s.m, s.calls[t]))
    && (forall t, u :: t in s.calls && u in s.calls && t != u && s.calls[t].kind != Peek && s.calls[u].kind != Peek ==>
          s.calls[t].idx != s.calls[u].idx)
    && Exclusive(s.calls)
  }

  // ---- sequences under append and delete

  lemma AppendFacts(s: seq<nat>, x: nat)
    ensures forall y :: y in s + [x] <==> y in s || y == x
    ensures forall a, b :: Before(s, a, b) ==> Before(s + [x], a, b)
  {
    forall a, b | Before(s, a, b) ensures Before(s + [x], a, b) {
      var i, j :| 0 <= i < j < |s| && s[i] == a && s[j] == b;
      assert (s + [x])[i] == a && (s + [x])[j] == b;
    }
  }

  lemma DeleteFacts(s: seq<nat>, x: nat)
    requires x in s && NoDup(s)
    ensures forall y :: y in Delete(s, x) <==> y in s && y != x
    ensures forall a, b :: Before(s, a, b) && a != x && b != x ==> Before(Delete(s, x), a, b)
    ensures NoDup(Delete(s, x))
  {
    var k := IndexOf(s, x);
    var d := Delete(s, x);
    assert forall i :: 0 <= i < k ==> d[i] == s[i];
    assert forall i :: k <= i < |d| ==> d[i] == s[i + 1];
    forall y | y in s && y != x ensures y in d {
      var i :| 0 <= i < |s| && s[i] == y;
      assert d[if i < k then i else i - 1] == y;
    }
    forall a, b | Before(s, a, b) && a != x && b != x ensures Before(d, a, b) {
      var i, j :| 0 <= i < j < |s| && s[i] == a && s[j] == b;
      var i', j' := if i < k then i else i - 1, if j < k then j else j - 1;
      assert d[i'] == a && d[j'] == b;
    }
  }

  lemma ChainAppend(next: seq<int>, s: seq<nat>, x: nat)
    requires Chain(next, s) && NoDup(s) && x !in s && x < NPROC
    ensures s == [] ==> Chain(next[x := -1], s + [x])
    ensures s != [] ==> Chain(next[s[|s| - 1] := x as int][x := -1], s + [x])
  {
    var next' := if s == [] then next[x := -1] else next[s[|s| - 1] := x as int][x := -1];
    forall i | 0 <= i < |s + [x]| ensures LinkOk(next', s + [x], i) {
      if i < |s| { assert LinkOk(next, s, i); }
    }
  }

  lemma ChainDelete(next: seq<int>, s: seq<nat>, x: nat)
    requires Chain(next, s) && NoDup(s) && x in s
    ensures IndexOf(s, x) == 0 ==>
              Chain(next[x := -1], Delete(s, x)) && next[x] == Head(Delete(s, x))
    ensures IndexOf(s, x) > 0 ==>
              Chain(next[s[IndexOf(s, x) - 1] := next[x]][x := -1], Delete(s, x)) && Head(Delete(s, x)) == Head(s)
  {
    var k := IndexOf(s, x);
    var d := Delete(s, x);
    var next' := if k == 0 then next[x := -1] else next[s[k - 1] := next[x]][x := -1];
    assert LinkOk(next, s, k);
    forall i | 0 <= i < |d| ensures LinkOk(next', d, i) {
      assert LinkOk(next, s, if i < k then i else i + 1);
    }
  }

  lemma ChainSame(next: seq<int>, next': seq<int>, s: seq<nat>)
    requires Chain(next, s) && |next'| == |next|
    requires forall p :: 0 <= p < |next| && p in s ==> next'[p] == next[p]
    ensures Chain(next', s)
  {
    forall i | 0 <= i < |s| ensures LinkOk(next', s, i) {
      assert LinkOk(next, s, i) && s[i] in s;
    }
  }

  /** Replacing one list by one that takes nothing from the others keeps the lists disjoint. */
  lemma DisjointUpdate(abs: seq<seq<nat>>, l: nat, list: seq<nat>)
    requires Disjoint(abs) && l < |abs| && NoDup(list)
    requires forall l', x :: 0 <= l' < |abs| && l' != l && x in list ==> x !in abs[l']
    ensures Disjoint(abs[l := list])
  {
  }

  // ---- steps that move one program counter

  lemma HeadKept(s: State, s': State, l: nat)
    requires l < |s.m.first| && l < |s.m.abs| && l < |s'.m.first| && l < |s'.m.abs| && HeadOk(s, l)
    requires s'.m.first[l] == s.m.first[l] && s'.m.abs[l] == s.m.abs[l]
    requires forall u :: u in s.calls && s.calls[u].pc == EmptySet && s.calls[u].list == l ==>
               u in s'.calls && s'.calls[u] == s.calls[u]
    ensures HeadOk(s', l)
  {
    if HalfAdded(s.calls, l) {
      var u :| u in s.calls && s.calls[u].pc == EmptySet && s.calls[u].list == l;
      assert s'.calls[u] == s.calls[u];
    }
  }

  lemma GotoKeeps(s: State, t: nat, pc: Pc)
    requires Inv(s) && t in s.calls && s.calls[t].pc != EmptySet
    requires PcOk(s.m, s.calls[t].(pc := pc)) && (s.calls[t].kind == Peek ==> pc == Locked)
    requires forall k :: Holds(s.calls[t].(pc := pc), k) ==> Holds(s.calls[t], k) || Free(s, k)
    ensures Inv(Goto(s, t, pc))
  {
    var s' := Goto(s, t, pc);
    forall l | 0 <= l < NLISTS ensures HeadOk(s', l) {
      HeadKept(s, s', l);
    }
    forall u | u in s'.calls ensures CallOk(s'.m, s'.calls[u]) {
      assert CallOk(s.m, s.calls[u]);
    }
  }

  /** A call that holds the list lock, and is not half through an add, sees the true first element. */
  lemma FirstIsHead(s: State, t: nat)
    requires Inv(s) && t in s.calls && Holds(s.calls[t], ListLock(s.calls[t].list)) && s.calls[t].pc != EmptySet
    ensures s.m.first[s.calls[t].list] == Head(s.m.abs[s.calls[t].list])
  {
    var l := s.calls[t].list;
    assert CallOk(s.m, s.calls[t]) && HeadOk(s, l);
    assert forall u :: u in s.calls && s.calls[u].pc == EmptySet ==> Holds(s.calls[u], ListLock(s.calls[u].list));
  }

  /** The successor of a cursor is on the list, and is the target or lies before it. */
  lemma NextOf(m: Lists, c: Call, curr: int)
    requires |m.abs| == NLISTS && c.list < NLISTS && Chain(m.next, m.abs[c.list]) && CursorOk(m, c, curr)
    ensures m.next[curr] == -1 || (0 <= m.next[curr] < NPROC && m.next[curr] in m.abs[c.list])
    ensures c.kind == Remove ==>
              m.next[curr] == c.idx || (m.next[curr] != -1 && Before(m.abs[c.list], m.next[curr], c.idx))
  {
    var list := m.abs[c.list];
    if c.kind == Remove {
      var i, j :| 0 <= i < j < |list| && list[i] == curr && list[j] == c.idx;
      SuccessorAt(m.next, list, i);
      assert i + 1 < j ==> list[i + 1] == m.next[curr] && list[j] == c.idx;
    } else {
      var i :| 0 <= i < |list| && list[i] == curr;
      SuccessorAt(m.next, list, i);
    }
  }

  lemma SuccessorAt(next: seq<int>, s: seq<nat>, i: nat)
    requires Chain(next, s) && i < |s|
    ensures next[s[i]] == if i + 1 < |s| then s[i + 1] else -1
    ensures i + 1 < |s| ==> s[i + 1] in s && s[i + 1] < NPROC
  {
    assert LinkOk(next, s, i);
  }

  lemma LockFirstKeeps(s: State, t: nat)
    requires Inv(s) && Enabled(s, LockFirst(t))
    ensures Inv(Apply(s, LockFirst(t)))
  {
    var c := s.calls[t];
    assert CallOk(s.m, c);
    FirstIsHead(s, t);
    var f := s.m.first[c.list];
    if c.kind == Remove {
      var j := IndexOf(s.m.abs[c.list], c.idx);
      assert s.m.abs[c.list][0] == f && s.m.abs[c.list][j] == c.idx && j > 0;
    }
    GotoKeeps(s, t, At(-1, f, s.m.next[f], true));
  }

  lemma AdvanceKeeps(s: State, t: nat)
    requires Inv(s) && Enabled(s, Advance(t))
    ensures Inv(Apply(s, Advance(t)))
  {
    var c := s.calls[t];
    assert CallOk(s.m, c);
    NextOf(s.m, c, c.pc.curr);
    GotoKeeps(s, t, At(if c.kind == Remove then c.pc.curr else -1, c.pc.nxt, s.m.next[c.pc.nxt], false));
  }

  lemma MoveKeeps(s: State, e: Event)
    requires Inv(s) && Enabled(s, e)
    requires e.LockList? || e.TakeFirst? || e.LockFirst? || e.LockNext? || e.Advance? || e.LockSelf?
    ensures Inv(Apply(s, e))
  {
    var c := s.calls[e.t];
    assert CallOk(s.m, c);
    match e
    case LockList(t) => GotoKeeps(s, t, Locked);
    case TakeFirst(t) => GotoKeeps(s, t, First);
    case LockFirst(t) => LockFirstKeeps(s, t);
    case LockNext(t) => GotoKeeps(s, t, Both(c.pc.prev, c.pc.curr, c.pc.nxt, c.pc.can));
    case Advance(t) => AdvanceKeeps(s, t);
    case LockSelf(t) => GotoKeeps(s, t, Ready(c.pc.prev, c.pc.curr, c.pc.can));
  }

  lemma StartKeeps(s: State, e: Event)
    requires Inv(s) && Enabled(s, e) && e.Start?
    ensures Inv(Apply(s, e))
  {
    var s' := Apply(s, e);
    forall l | 0 <= l < NLISTS ensures HeadOk(s', l) {
      HeadKept(s, s', l);
    }
    forall u | u in s'.calls ensures CallOk(s'.m, s'.calls[u]) {
      if u != e.t { assert CallOk(s.m, s.calls[u]); }
    }
  }

  lemma UnpeekKeeps(s: State, t: nat)
    requires Inv(s) && Enabled(s, Unpeek(t))
    ensures Inv(Apply(s, Unpeek(t)))
  {
    var s' := Apply(s, Unpeek(t));
    forall l | 0 <= l < NLISTS ensures HeadOk(s', l) {
      HeadKept(s, s', l);
    }
  }

  lemma SetFirstKeeps(s: State, t: nat)
    requires Inv(s) && Enabled(s, SetFirst(t))
    ensures Inv(Apply(s, SetFirst(t)))
  {
    var s' := Apply(s, SetFirst(t));
    var c := s.calls[t];
    FirstIsHead(s, t);
    assert Holds(c, ListLock(c.list));
    forall l | 0 <= l < NLISTS ensures HeadOk(s', l) {
      if l == c.list {
        assert t in s'.calls && s'.calls[t].pc == EmptySet && s'.calls[t].list == l;
      } else {
        HeadKept(s, s', l);
      }
    }
    forall u | u in s'.calls ensures CallOk(s'.m, s'.calls[u]) {
      assert CallOk(s.m, s.calls[u]);
      assert u != t ==> !Holds(s.calls[u], ListLock(c.list));
    }
  }

  // ---- steps at which a call takes effect and returns

  /** The list changed by moving x only: everything else keeps its membership and its order. */
  ghost predicate OnlyMoves(list: seq<nat>, list': seq<nat>, x: nat) {
    && (forall y :: y != x ==> (y in list <==> y in list'))
    && (forall a, b :: Before(list, a, b) && a != x && b != x ==> Before(list', a, b))
  }

  /** What call c changed does not concern call d. */
  lemma OtherCall(s: State, s': State, c: Call, d: Call)
    requires |s.m.first| == |s.m.abs| == NLISTS == |s'.m.first| == |s'.m.abs| && |s.m.next| == |s'.m.next| == NPROC
    requires CallOk(s.m, c) && CallOk(s.m, d) && (d.kind != Peek ==> c.idx != d.idx)
    requires forall l :: 0 <= l < NLISTS && l != c.list ==> s'.m.abs[l] == s.m.abs[l]
    requires OnlyMoves(s.m.abs[c.list], s'.m.abs[c.list], c.idx)
    requires forall p :: 0 <= p < NPROC && Holds(d, StateLock(p)) ==> s'.m.next[p] == s.m.next[p]
    requires !Holds(d, StateLock(c.idx))
    requires Holds(d, ListLock(d.list)) ==> s'.m.first[d.list] == s.m.first[d.list]
    requires !(d.pc == EmptySet && d.list == c.list)
    ensures CallOk(s'.m, d)
  {
    if d.pc.At? || d.pc.Both? || d.pc.Ready? {
      assert Holds(d, StateLock(d.pc.curr));
    }
  }

  /** The call of t returns with its list changed only around its own index, having written
      only what its locks cover. */
  ghost predicate Returned(s: State, s': State, t: nat)
    requires t in s.calls && ChainsOk(s.m) && ChainsOk(s'.m) && s.calls[t].list < NLISTS
  {
    var c := s.calls[t];
    && s'.calls == s.calls - {t}
    && (forall l :: 0 <= l < NLISTS && l != c.list ==> s'.m.abs[l] == s.m.abs[l] && s'.m.first[l] == s.m.first[l])
    && OnlyMoves(s.m.abs[c.list], s'.m.abs[c.list], c.idx)
    && s'.m.first[c.list] == Head(s'.m.abs[c.list])
    && (s'.m.first[c.list] != s.m.first[c.list] || s.m.abs[c.list] == [] ==> Holds(c, ListLock(c.list)))
    && (forall p :: 0 <= p < NPROC && s'.m.next[p] != s.m.next[p] ==> p == c.idx || Holds(c, StateLock(p)))
    && (Holds(c, StateLock(c.idx)) || Free(s, StateLock(c.idx)))
  }

  lemma ReturnCall(s: State, s': State, t: nat, u: nat)
    requires t in s.calls && u in s.calls && t != u && ChainsOk(s.m) && ChainsOk(s'.m)
    requires CallOk(s.m, s.calls[t]) && CallOk(s.m, s.calls[u])
    requires s.calls[u].kind != Peek ==> s.calls[t].idx != s.calls[u].idx
    requires Exclusive(s.calls) && Returned(s, s', t)
    ensures CallOk(s'.m, s.calls[u])
  {
    var c, d := s.calls[t], s.calls[u];
    assert d.pc == EmptySet ==> Holds(d, ListLock(d.list));
    assert forall k :: Holds(c, k) ==> !Holds(d, k);
    OtherCall(s, s', c, d);
  }

  lemma ReturnKeeps(s: State, s': State, t: nat)
    requires Inv(s) && t in s.calls && s.calls[t].kind != Peek
    requires CallOk(s.m, s.calls[t]) && ChainsOk(s'.m) && Returned(s, s', t)
    ensures Inv(s')
  {
    forall l | 0 <= l < NLISTS ensures HeadOk(s', l) {
      if l != s.calls[t].list { HeadKept(s, s', l); }
    }
    forall u | u in s'.calls ensures CallOk(s'.m, s'.calls[u]) {
      ReturnCall(s, s', t, u);
    }
  }

  /** New links at x and p, both outside the other lists, leave the other chains alone. */
  lemma OtherChains(m: Lists, next': seq<int>, l: nat, x: nat, p: int)
    requires ChainsOk(m) && l < NLISTS && |next'| == NPROC && p in m.abs[l] + [x]
    requires forall l' :: 0 <= l' < NLISTS && l' != l ==> x !in m.abs[l']
    requires forall q :: 0 <= q < NPROC && q != x && q != p ==> next'[q] == m.next[q]
    ensures forall l' :: 0 <= l' < NLISTS && l' != l ==> Chain(next', m.abs[l'])
  {
    forall l' | 0 <= l' < NLISTS && l' != l ensures Chain(next', m.abs[l']) {
      assert p == x || p in m.abs[l];
      ChainSame(m.next, next', m.abs[l']);
    }
  }

  /** A member whose next is -1 is last, and one whose next is a member stands right before it. */
  lemma Predecessor(m: Lists, l: nat, curr: int, x: nat)
    requires ChainsOk(m) && l < NLISTS && 0 <= curr < NPROC && curr in m.abs[l]
    ensures m.next[curr] == -1 ==> curr == m.abs[l][|m.abs[l]| - 1]
    ensures m.next[curr] == x && x in m.abs[l] ==>
              IndexOf(m.abs[l], x) > 0 && curr == m.abs[l][IndexOf(m.abs[l], x) - 1]
  {
    var list := m.abs[l];
    var i :| 0 <= i < |list| && list[i] == curr;
    assert Chain(m.next, list) && LinkOk(m.next, list, i);
  }

  lemma FinishEmptyKeeps(s: State, t: nat)
    requires Inv(s) && Enabled(s, FinishEmpty(t))
    ensures Inv(Apply(s, FinishEmpty(t)))
  {
    var s' := Apply(s, FinishEmpty(t));
    var c := s.calls[t];
    assert CallOk(s.m, c);
    AppendFacts([], c.idx);
    ChainAppend(s.m.next, [], c.idx);
    OtherChains(s.m, s'.m.next, c.list, c.idx, c.idx);
    DisjointUpdate(s.m.abs, c.list, s'.m.abs[c.list]);
    ReturnKeeps(s, s', t);
  }

  lemma UnlinkFirstKeeps(s: State, t: nat)
    requires Inv(s) && Enabled(s, UnlinkFirst(t))
    ensures Inv(Apply(s, UnlinkFirst(t)))
  {
    var s' := Apply(s, UnlinkFirst(t));
    var c := s.calls[t];
    var list := s.m.abs[c.list];
    assert CallOk(s.m, c);
    FirstIsHead(s, t);
    assert IndexOf(list, c.idx) == 0;
    DeleteFacts(list, c.idx);
    ChainDelete(s.m.next, list, c.idx);
    OtherChains(s.m, s'.m.next, c.list, c.idx, c.idx);
    DisjointUpdate(s.m.abs, c.list, s'.m.abs[c.list]);
    ReturnKeeps(s, s', t);
  }

  lemma FinishAddKeeps(s: State, t: nat)
    requires Inv(s) && Enabled(s, Finish(t)) && s.calls[t].kind == Add
    ensures Inv(Apply(s, Finish(t)))
  {
    var s' := Apply(s, Finish(t));
    var c := s.calls[t];
    var list := s.m.abs[c.list];
    assert CallOk(s.m, c);
    Predecessor(s.m, c.list, c.pc.curr, c.idx);
    AppendFacts(list, c.idx);
    ChainAppend(s.m.next, list, c.idx);
    OtherChains(s.m, s'.m.next, c.list, c.idx, c.pc.curr);
    DisjointUpdate(s.m.abs, c.list, s'.m.abs[c.list]);
    NotHalfAdded(s, c);
    ReturnKeeps(s, s', t);
  }

  lemma RemoveLists(m: Lists, m': Lists, l: nat, curr: int, x: nat)
    requires ChainsOk(m) && l < NLISTS && 0 <= curr < NPROC && curr in m.abs[l] && x in m.abs[l] && x < NPROC
    requires m.next[curr] == x
    requires m' == m.(next := m.next[curr := m.next[x]][x := -1], abs := m.abs[l := Delete(m.abs[l], x)])
    ensures ChainsOk(m') && OnlyMoves(m.abs[l], m'.abs[l], x) && Head(m'.abs[l]) == Head(m.abs[l])
  {
    Predecessor(m, l, curr, x);
    DeleteFacts(m.abs[l], x);
    ChainDelete(m.next, m.abs[l], x);
    OtherChains(m, m'.next, l, x, curr);
    DisjointUpdate(m.abs, l, m'.abs[l]);
  }

  lemma FinishRemoveKeeps(s: State, t: nat)
    requires Inv(s) && Enabled(s, Finish(t)) && s.calls[t].kind == Remove
    ensures Inv(Apply(s, Finish(t)))
  {
    var s' := Apply(s, Finish(t));
    var c := s.calls[t];
    assert CallOk(s.m, c);
    RemoveLists(s.m, s'.m, c.list, c.pc.curr, c.idx);
    NotHalfAdded(s, c);
    ReturnKeeps(s, s', t);
  }

  /** A list with a cursor on it is not empty, so no add to an empty list is half through. */
  lemma NotHalfAdded(s: State, c: Call)
    requires Inv(s) && c.list < NLISTS && s.m.abs[c.list] != []
    ensures s.m.first[c.list] == Head(s.m.abs[c.list])
  {
    assert HeadOk(s, c.list);
    assert forall u :: u in s.calls ==> CallOk(s.m, s.calls[u]);
  }

  lemma StepKeeps(s: State, e: Event)
    requires Inv(s) && Enabled(s, e)
    ensures Inv(Apply(s, e))
  {
    match e
    case Start(_, _, _, _) => StartKeeps(s, e);
    case Unpeek(t) => UnpeekKeeps(s, t);
    case SetFirst(t) => SetFirstKeeps(s, t);
    case FinishEmpty(t) => FinishEmptyKeeps(s, t);
    case UnlinkFirst(t) => UnlinkFirstKeeps(s, t);
    case Finish(t) => if s.calls[t].kind == Add { FinishAddKeeps(s, t); } else { FinishRemoveKeeps(s, t); }
    case _ => MoveKeeps(s, e);
  }

  // ---- what concurrent callers may rely on

  /** A step belongs to one call. The lists change only when that call returns, and then by exactly
      what was asked: its index appended at the tail of its list, or that one element deleted. */
  lemma StepEffect(s: State, e: Event)
    requires Inv(s) && Enabled(s, e)
    ensures var s' := Apply(s, e);
      && |s'.m.abs| == |s'.m.first| == NLISTS
      && (forall u :: u != e.t ==> (u in s.calls <==> u in s'.calls) && (u in s.calls ==> s'.calls[u] == s.calls[u]))
      && (e.t in s'.calls ==> s'.m.abs == s.m.abs && s'.m.next == s.m.next)
      && (e.t in s'.calls && !e.Start? ==> s'.calls[e.t] == s.calls[e.t].(pc := s'.calls[e.t].pc))
      && (e.t !in s'.calls ==>
            && e.t in s.calls && s.calls[e.t].list < NLISTS
            && var c := s.calls[e.t];
               match c.kind
               case Add => s'.m.abs == s.m.abs[c.list := s.m.abs[c.list] + [c.idx]]
               case Remove => c.idx in s.m.abs[c.list] && s'.m.abs == s.m.abs[c.list := Delete(s.m.abs[c.list], c.idx)]
               case Peek => s'.m == s.m)
  {
  }

  /** A step of a call leaves every other index on the lists it was on. */
  lemma OthersStay(s: State, e: Event, y: nat)
    requires Inv(s) && Enabled(s, e) && (e.Start? || s.calls[e.t].kind == Peek || y != s.calls[e.t].idx)
    ensures |Apply(s, e).m.abs| == NLISTS
    ensures forall l :: 0 <= l < NLISTS ==> (y in s.m.abs[l] <==> y in Apply(s, e).m.abs[l])
  {
    StepEffect(s, e);
    if e.t in s.calls && e.t !in Apply(s, e).calls {
      var c := s.calls[e.t];
      assert CallOk(s.m, c);
      if c.kind == Add { AppendFacts(s.m.abs[c.list], c.idx); }
      if c.kind == Remove { DeleteFacts(s.m.abs[c.list], c.idx); }
    }
  }

  /** Where a call's own index is once the call has returned. */
  lemma ReturnedPlace(s: State, e: Event)
    requires Inv(s) && Enabled(s, e) && e.t in s.calls && e.t !in Apply(s, e).calls
    ensures |Apply(s, e).m.abs| == NLISTS && s.calls[e.t].list < NLISTS
    ensures s.calls[e.t].kind == Add ==> s.calls[e.t].idx in Apply(s, e).m.abs[s.calls[e.t].list]
    ensures s.calls[e.t].kind == Remove ==>
              forall l :: 0 <= l < NLISTS ==> s.calls[e.t].idx !in Apply(s, e).m.abs[l]
  {
    StepEffect(s, e);
    var c := s.calls[e.t];
    assert CallOk(s.m, c);
    if c.kind == Add { AppendFacts(s.m.abs[c.list], c.idx); }
    if c.kind == Remove { DeleteFacts(s.m.abs[c.list], c.idx); }
  }

  /** While a call holds a list lock, nobody else moves the first element of that list. */
  lemma FirstStable(s: State, e: Event, u: nat, l: nat)
    requires Inv(s) && Enabled(s, e) && u in s.calls && u != e.t && l < NLISTS
    requires Holds(s.calls[u], ListLock(l))
    ensures |Apply(s, e).m.first| == NLISTS && Apply(s, e).m.first[l] == s.m.first[l]
  {
    if e.SetFirst? || e.UnlinkFirst? {
      assert Holds(s.calls[e.t], ListLock(s.calls[e.t].list));
    }
  }

  /** The two ways a list walk could go wrong never happen: removing from an empty list, and
      running off the end of the list before the index to remove is found. */
  lemma NoPanic(s: State, t: nat)
    requires Inv(s) && t in s.calls && s.calls[t].kind == Remove
    ensures s.calls[t].list < NLISTS == |s.m.first|
    ensures s.calls[t].pc == Locked ==> s.m.first[s.calls[t].list] != -1
    ensures s.calls[t].pc.At? ==> 0 <= s.calls[t].pc.nxt < NPROC
  {
    assert CallOk(s.m, s.calls[t]);
    if s.calls[t].pc == Locked {
      FirstIsHead(s, t);
    }
    if s.calls[t].pc.At? {
      NextOf(s.m, s.calls[t], s.calls[t].pc.curr);
    }
  }

  /** initlists. The next fields may hold anything. */
  ghost predicate Init(s: State) {
    && |s.m.next| == NPROC && s.calls == map[]
    && s.m.first == seq(NLISTS, i => -1) && s.m.abs == seq(NLISTS, i => [])
  }

  ghost predicate Run(states: seq<State>, events: seq<Event>) {
    && |states| == |events| + 1 && Init(states[0])
    && forall i :: 0 <= i < |events| ==> Enabled(states[i], events[i]) && states[i + 1] == Apply(states[i], events[i])
  }

  lemma {:induction false} RunKeeps(states: seq<State>, events: seq<Event>, i: nat)
    requires Run(states, events) && i <= |events|
    ensures Inv(states[i])
  {
    if i > 0 {
      RunKeeps(states, events, i - 1);
      StepKeeps(states[i - 1], events[i - 1]);
    }
  }

  /** The list lock is held between the two stores of an add to an empty list. */
  lemma UnlockedHead(s: State, l: nat)
    requires Inv(s) && l < NLISTS && Free(s, ListLock(l))
    ensures s.m.first[l] == Head(s.m.abs[l])
  {
    assert HeadOk(s, l);
    assert forall u :: u in s.calls && s.calls[u].pc == EmptySet ==> Holds(s.calls[u], ListLock(s.calls[u].list));
  }

  /** Lock coupling. Under every interleaving, and whatever list one looks at, the next fields chain
      its elements without repetition up to -1, no element is on two lists, and l->first is the first
      element, except between the two stores of an add to an empty list, when the list lock is held. */
  lemma ListsSafe(states: seq<State>, events: seq<Event>, i: nat)
    requires Run(states, events) && i <= |events|
    ensures Inv(states[i])
    ensures ChainsOk(states[i].m)
    ensures forall l :: 0 <= l < NLISTS && Free(states[i], ListLock(l)) ==>
              states[i].m.first[l] == Head(states[i].m.abs[l])
  {
    RunKeeps(states, events, i);
    forall l | 0 <= l < NLISTS && Free(states[i], ListLock(l))
      ensures states[i].m.first[l] == Head(states[i].m.abs[l])
    {
      UnlockedHead(states[i], l);
    }
  }
}
