/** What every step of the log and buffer-cache machine keeps. */
module LogInvariant {
  import opened Params
  import opened DiskLayout
  import opened LogMachine

  /** log_write has pinned the buffers of lh[FirstPin..], and install_trans has not yet unpinned them. */
  function FirstPin(l: Log): nat {
    match l.phase
    case Running => 0
    case Logging(_) => 0
    case Installing(t) => t
    case _ => |l.lh|
  }

  predicate Pinned(l: Log, block: int) {
    exists j :: FirstPin(l) <= j < |l.lh| && l.lh[j] == block
  }

  /** The references to buffer i. */
  function On(tickets: map<nat, Ticket>, i: nat): set<nat> {
    set k | k in tickets && tickets[k].buf == i
  }

  // ---- the log space that open operations may still use

  function Reserved(ops: map<nat, set<int>>): int {
    if ops == map[] then 0 else
    var o := Least(ops.Keys);
    MAXOPBLOCKS - |ops[o]| + Reserved(ops - {o})
  }

  /** The smallest element, as a deterministic choice. */
  function Least(s: set<nat>): (m: nat)
    requires s != {}
    ensures m in s && forall x :: x in s ==> m <= x
  {
    LeastExists(s);
    var m :| m in s && forall x :: x in s ==> m <= x;
    m
  }

  lemma LeastExists(s: set<nat>)
    requires s != {}
    ensures exists m :: m in s && forall x :: x in s ==> m <= x
  {
    var m :| m in s;
    while exists x :: x in s && x < m
      invariant m in s
      decreases m
    {
      var x :| x in s && x < m;
      m := x;
    }
  }

  lemma {:induction false} ReservedOne(ops: map<nat, set<int>>, o: nat)
    requires o in ops
    ensures Reserved(ops) == MAXOPBLOCKS - |ops[o]| + Reserved(ops - {o})
    decreases |ops|
  {
    var m := Least(ops.Keys);
    if m != o {
      ReservedOne(ops - {m}, o);
      var rest := ops - {o};
      assert m in rest && Least(rest.Keys) == m;
      assert ops - {m} - {o} == rest - {m};
    }
  }

  lemma {:induction false} ReservedAtMost(ops: map<nat, set<int>>)
    ensures Reserved(ops) <= |ops| * MAXOPBLOCKS
    decreases |ops|
  {
    if ops != map[] {
      var m := Least(ops.Keys);
      ReservedAtMost(ops - {m});
      assert (ops - {m}).Keys == ops.Keys - {m};
    }
  }

  // ---- the invariant: the log

  ghost predicate Shape(l: Log) {
    && l.layout.Valid()
    && |l.disk| == |l.logical| == |l.committed| == l.layout.nblocks
    && |l.lh| <= LOGSIZE && NoDup(l.lh)
    && (forall j :: 0 <= j < |l.lh| ==> l.layout.Home(l.lh[j]))
    && (l.phase.Recovering? || l.phase.Logging? || l.phase.Installing? ==> l.phase.tail <= |l.lh|)
    && (l.phase.Boot? || l.phase.Committed? ==> l.lh == [])
  }

  /** Open operations exclude commit and recovery, and never over-commit the log. */
  ghost predicate SpaceOk(l: Log) {
    && (l.ops != map[] ==> l.phase.Running?)
    && (forall o :: o in l.ops ==> |l.ops[o]| <= MAXOPBLOCKS)
    && (forall o, b :: o in l.ops && b in l.ops[o] ==> b in l.lh)
    && (l.phase.Running? ==> |l.lh| + Reserved(l.ops) <= LOGSIZE)
    && (l.phase.Running? && l.ops == map[] ==> l.lh == [])
  }

  /** Home blocks that are not waiting to be installed are up to date. */
  ghost predicate DiskOk(l: Log)
    requires Shape(l)
  {
    !Recovery(l.phase) ==> forall b :: l.layout.Home(b) && !Pinned(l, b) ==> l.disk[b] == l.logical[b]
  }

  /** The first n log blocks hold the logged contents. */
  ghost predicate Logged(l: Log, n: nat)
    requires Shape(l) && n <= |l.lh|
  {
    forall j :: 0 <= j < n ==> l.disk[l.layout.start + 1 + j] == l.logical[l.lh[j]]
  }

  ghost predicate Header(l: Log, bs: seq<int>)
    requires Shape(l)
  {
    HeadIs(l.disk[l.layout.start], bs)
  }

  ghost predicate SameHome(l: Layout, d: Disk, d': Disk)
    requires |d| == |d'| == l.nblocks
  {
    forall b :: l.Home(b) ==> d[b] == d'[b]
  }

  ghost predicate PhaseOk(l: Log)
    requires Shape(l)
  {
    && Recovers(l.layout, l.disk, l.committed)
    && match l.phase
       case Boot => l.logical == l.committed
       case Recovering(t) =>
         && l.logical == l.committed && Header(l, l.lh)
         && forall j :: 0 <= j < t ==> l.disk[l.lh[j]] == l.disk[l.layout.start + 1 + j]
       case Running => Header(l, [])
       case Logging(t) => Header(l, []) && Logged(l, t)
       case Installing(t) => Header(l, l.lh) && Logged(l, |l.lh|) && l.committed == l.logical
       case Committed => Header(l, []) && SameHome(l.layout, l.committed, l.logical)
  }

  ghost predicate LogInv(l: Log) {
    Shape(l) && SpaceOk(l) && DiskOk(l) && PhaseOk(l)
  }

  /** What a valid buffer of `block` holds, if it is not dirty. */
  ghost function View(l: Log, block: nat): Block
    requires Shape(l) && block < l.layout.nblocks
  {
    if !Recovery(l.phase) && l.layout.Home(block) then l.logical[block] else l.disk[block]
  }

  // ---- the invariant: the cache

  ghost predicate TicketsOk(s: State) {
    && (forall k :: k in s.tickets ==> s.tickets[k].buf < |s.bufs| && s.bufs[s.tickets[k].buf].dev == ROOTDEV)
    && (Recovery(s.log.phase) ==> forall k :: k in s.tickets ==> s.tickets[k].owner == Kernel)
    && (forall i :: 0 <= i < |s.bufs| && s.bufs[i].holder.Some? ==>
          s.bufs[i].holder.value in s.tickets && s.tickets[s.bufs[i].holder.value].buf == i)
  }

  function PinCount(l: Log, b: Buf): nat {
    if b.dev == ROOTDEV && Pinned(l, b.blockno) then 1 else 0
  }

  /** refcnt is the number of holders plus the pin. */
  ghost predicate RefOk(s: State, i: nat)
    requires i < |s.bufs|
  {
    s.bufs[i].refcnt == |On(s.tickets, i)| + PinCount(s.log, s.bufs[i])
  }

  ghost predicate BufOk(s: State, b: Buf)
    requires Shape(s.log)
  {
    && (b.dev == 0 || (b.dev == ROOTDEV && b.blockno < s.log.layout.nblocks))
    && (b.dirty ==> b.dev == ROOTDEV && b.valid && s.log.layout.Home(b.blockno) && !Recovery(s.log.phase))
    && (b.dirty && b.blockno in s.log.lh ==>
          && b.holder.Some? && b.holder.value in s.tickets
          && s.tickets[b.holder.value].owner.Op? && s.tickets[b.holder.value].owner.id in s.log.ops)
    && (b.dev == ROOTDEV && b.valid && !b.dirty ==> b.data == View(s.log, b.blockno))
  }

  /** At most one buffer holds a given block. */
  ghost predicate UniqueOk(bufs: seq<Buf>) {
    forall i, j :: 0 <= i < j < |bufs| && bufs[i].dev == bufs[j].dev == ROOTDEV ==>
      bufs[i].blockno != bufs[j].blockno
  }

  ghost predicate InCache(bufs: seq<Buf>, block: int) {
    exists i :: 0 <= i < |bufs| && Cached(bufs[i], block) && bufs[i].valid
  }

  /** An update that is not yet home is in the cache. */
  ghost predicate PinsOk(bufs: seq<Buf>, l: Log) {
    forall j :: FirstPin(l) <= j < |l.lh| ==> InCache(bufs, l.lh[j])
  }

  /** What does not depend on the contents of buffers. */
  ghost predicate CacheShape(s: State) {
    |s.bufs| == NBUF && TicketsOk(s) && UniqueOk(s.bufs) && PinsOk(s.bufs, s.log)
  }

  ghost predicate CacheInv(s: State)
    requires Shape(s.log)
  {
    && CacheShape(s)
    && (forall i :: 0 <= i < |s.bufs| ==> BufOk(s, s.bufs[i]))
    && (forall i :: 0 <= i < |s.bufs| ==> RefOk(s, i))
  }

  ghost predicate Inv(s: State) {
    LogInv(s.log) && CacheInv(s)
  }

  // ---- tickets

  lemma OnAdd(tickets: map<nat, Ticket>, k: nat, t: Ticket, i: nat)
    requires k !in tickets
    ensures |On(tickets[k := t], i)| == |On(tickets, i)| + (if t.buf == i then 1 else 0)
  {
    assert On(tickets[k := t], i) == On(tickets, i) + if t.buf == i then {k} else {};
  }

  lemma OnRemove(tickets: map<nat, Ticket>, k: nat, i: nat)
    requires k in tickets
    ensures |On(tickets - {k}, i)| == |On(tickets, i)| - (if tickets[k].buf == i then 1 else 0)
  {
    assert On(tickets - {k}, i) == On(tickets, i) - if tickets[k].buf == i then {k} else {};
  }

  /** Changing one buffer keeps the pinned blocks in the cache. */
  lemma PinsKept(bufs: seq<Buf>, i: nat, b: Buf, l: Log)
    requires PinsOk(bufs, l) && i < |bufs|
    requires bufs[i].dev == ROOTDEV && Pinned(l, bufs[i].blockno) && bufs[i].valid ==>
               Cached(b, bufs[i].blockno) && b.valid
    ensures PinsOk(bufs[i := b], l)
  {
    forall j | FirstPin(l) <= j < |l.lh| ensures InCache(bufs[i := b], l.lh[j]) {
      var h :| 0 <= h < |bufs| && Cached(bufs[h], l.lh[j]) && bufs[h].valid;
      assert Cached(bufs[i := b][h], l.lh[j]) && bufs[i := b][h].valid;
    }
  }

  // ---- steps that touch only the cache

  /** A buffer bget may recycle is neither referenced, nor locked, nor pinned. */
  lemma IdleBuffer(s: State, i: nat)
    requires Inv(s) && i < |s.bufs| && s.bufs[i].refcnt == 0
    ensures On(s.tickets, i) == {}
    ensures s.bufs[i].holder == None
    ensures s.bufs[i].dev == ROOTDEV ==> !Pinned(s.log, s.bufs[i].blockno)
  {
    assert RefOk(s, i);
    assert forall k :: k in s.tickets ==> k in On(s.tickets, s.tickets[k].buf);
    assert BufOk(s, s.bufs[i]);
  }

  lemma MissKeeps(s: State, k: nat, owner: Owner, block: nat, i: nat)
    requires Inv(s) && CanGet(s, k, owner, block, i) && !Cached(s.bufs[i], block)
    ensures Inv(DoGet(s, k, owner, block, i))
  {
    var s' := DoGet(s, k, owner, block, i);
    IdleBuffer(s, i);
    forall j | 0 <= j < |s.bufs| ensures RefOk(s', j) && BufOk(s', s'.bufs[j]) { MissBuf(s, k, owner, block, i, j); }
    PinsKept(s.bufs, i, s'.bufs[i], s.log);
  }

  lemma MissBuf(s: State, k: nat, owner: Owner, block: nat, i: nat, j: nat)
    requires Inv(s) && CanGet(s, k, owner, block, i) && !Cached(s.bufs[i], block) && j < |s.bufs|
    requires s.bufs[i].dev == ROOTDEV ==> !Pinned(s.log, s.bufs[i].blockno)
    ensures RefOk(DoGet(s, k, owner, block, i), j)
            && BufOk(DoGet(s, k, owner, block, i), DoGet(s, k, owner, block, i).bufs[j])
  {
    assert !InCache(s.bufs, block);
    OnAdd(s.tickets, k, Ticket(i, owner), j);
    assert RefOk(s, j) && BufOk(s, s.bufs[j]);
  }

  lemma HitKeeps(s: State, k: nat, owner: Owner, block: nat, i: nat)
    requires Inv(s) && CanGet(s, k, owner, block, i) && Cached(s.bufs[i], block)
    ensures Inv(DoGet(s, k, owner, block, i))
  {
    var s' := DoGet(s, k, owner, block, i);
    forall j | 0 <= j < |s.bufs| ensures RefOk(s', j) {
      OnAdd(s.tickets, k, Ticket(i, owner), j);
      assert RefOk(s, j);
    }
    PinsKept(s.bufs, i, s'.bufs[i], s.log);
    forall j | 0 <= j < |s.bufs| ensures BufOk(s', s'.bufs[j]) {
      assert BufOk(s, s.bufs[j]);
    }
  }

  lemma GetKeeps(s: State, k: nat, owner: Owner, block: nat, i: nat)
    requires Inv(s) && CanGet(s, k, owner, block, i)
    ensures Inv(DoGet(s, k, owner, block, i))
  {
    if Cached(s.bufs[i], block) {
      HitKeeps(s, k, owner, block, i);
    } else {
      MissKeeps(s, k, owner, block, i);
    }
  }

  /** One buffer changes, and keeps its block, its references and, unless it was invalid, its validity. */
  lemma SetBufKeeps(s: State, k: nat, b: Buf)
    requires Inv(s) && Has(s, k)
    requires Cached(b, BufOf(s, k).blockno) && b.refcnt == BufOf(s, k).refcnt
    requires BufOf(s, k).valid ==> b.valid
    requires b.holder.Some? ==> b.holder.value in s.tickets && s.tickets[b.holder.value].buf == s.tickets[k].buf
    requires BufOk(s, b)
    ensures Inv(SetBuf(s, k, b))
  {
    var s' := SetBuf(s, k, b);
    forall j | 0 <= j < |s.bufs| ensures RefOk(s', j) {
      assert RefOk(s, j);
    }
    PinsKept(s.bufs, s.tickets[k].buf, BufOf(s', k), s.log);
    forall j | 0 <= j < |s.bufs| ensures BufOk(s', s'.bufs[j]) {
      assert BufOk(s, s.bufs[j]);
    }
  }

  lemma LockKeeps(s: State, k: nat)
    requires Inv(s) && CanLock(s, k)
    ensures Inv(DoLock(s, k))
  {
    assert BufOk(s, BufOf(s, k));
    SetBufKeeps(s, k, BufOf(s, k).(holder := Some(k)));
  }

  lemma FillKeeps(s: State, k: nat)
    requires Inv(s) && CanFill(s, k)
    ensures Inv(DoFill(s, k))
  {
    var b := BufOf(s, k);
    assert BufOk(s, b);
    assert View(s.log, b.blockno) == s.log.disk[b.blockno] by {
      assert !InCache(s.bufs, b.blockno);
    }
    SetBufKeeps(s, k, b.(valid := true, data := s.log.disk[b.blockno]));
  }

  lemma ModifyKeeps(s: State, k: nat, data: Block)
    requires Inv(s) && OpHolds(s, k)
    ensures Inv(DoModify(s, k, data))
  {
    assert BufOk(s, BufOf(s, k));
    SetBufKeeps(s, k, BufOf(s, k).(data := data, dirty := true));
  }

  /** Changes released unlogged in a buffer whose block is in the header. */
  lemma SlipLog(l: Log, block: int, data: Block)
    requires LogInv(l) && l.phase.Running? && block in l.lh
    ensures 0 <= block < |l.logical| && LogInv(l.(logical := l.logical[block := data]))
    ensures Pinned(l, block)
  {
    var j :| 0 <= j < |l.lh| && l.lh[j] == block;
    var l' := l.(logical := l.logical[block := data]);
    assert forall x :: Pinned(l', x) <==> Pinned(l, x);
  }

  lemma ReleaseLog(s: State, k: nat)
    requires Inv(s) && CanRelease(s, k)
    ensures LogInv(DoRelease(s, k).log)
    ensures forall x :: Pinned(DoRelease(s, k).log, x) <==> Pinned(s.log, x)
  {
    assert BufOk(s, BufOf(s, k));
    if Slips(s, k) { SlipLog(s.log, BufOf(s, k).blockno, BufOf(s, k).data); }
  }

  lemma ReleaseBuf(s: State, k: nat, j: nat)
    requires Inv(s) && CanRelease(s, k) && j < |s.bufs| && LogInv(DoRelease(s, k).log)
    requires forall x :: Pinned(DoRelease(s, k).log, x) <==> Pinned(s.log, x)
    ensures BufOk(DoRelease(s, k), DoRelease(s, k).bufs[j]) && RefOk(DoRelease(s, k), j)
  {
    assert BufOk(s, s.bufs[j]) && RefOk(s, j) && BufOk(s, BufOf(s, k));
    OnRemove(s.tickets, k, j);
  }

  lemma ReleaseKeeps(s: State, k: nat)
    requires Inv(s) && CanRelease(s, k)
    ensures Inv(DoRelease(s, k))
  {
    var s' := DoRelease(s, k);
    ReleaseLog(s, k);
    forall j | 0 <= j < |s.bufs| ensures BufOk(s', s'.bufs[j]) && RefOk(s', j) { ReleaseBuf(s, k, j); }
    ReleaseRest(s, k);
  }

  lemma ReleaseRest(s: State, k: nat)
    requires CacheShape(s) && CanRelease(s, k)
    ensures CacheShape(DoRelease(s, k))
  {
    var s' := DoRelease(s, k);
    PinsKept(s.bufs, s.tickets[k].buf, s'.bufs[s.tickets[k].buf], s.log);
    assert PinsOk(s'.bufs, s'.log);
  }

  // ---- steps of operations

  lemma LogBlockPins(l: Log, o: nat, block: nat, data: Block)
    requires o in l.ops && block < |l.logical| && l.phase.Running?
    ensures forall x :: Pinned(LogBlock(l, o, block, data), x) <==> Pinned(l, x) || x == block
  {
    var l' := LogBlock(l, o, block, data);
    assert l'.lh[..|l.lh|] == l.lh;
    if block !in l.lh {
      assert l'.lh[|l.lh|] == block;
    }
    forall x | Pinned(l, x) ensures Pinned(l', x) {
      var j :| 0 <= j < |l.lh| && l.lh[j] == x;
      assert l'.lh[j] == x;
    }
  }

  lemma LogBlockKeeps(l: Log, o: nat, block: nat, data: Block)
    requires LogInv(l) && o in l.ops && l.layout.Home(block) && !TooBig(l)
    requires |l.ops[o] + {block}| <= MAXOPBLOCKS
    ensures LogInv(LogBlock(l, o, block, data))
  {
    var l' := LogBlock(l, o, block, data);
    ReservedOne(l.ops, o);
    ReservedOne(l'.ops, o);
    assert l'.ops - {o} == l.ops - {o};
    if block in l.ops[o] {
      assert l.ops[o] + {block} == l.ops[o];
    }
    assert SpaceOk(l');
    assert block in l'.lh;
    assert forall x :: x in l.lh ==> x in l'.lh;
    LogBlockPins(l, o, block, data);
  }

  lemma LogWriteBuf(s: State, k: nat, j: nat)
    requires Shape(s.log) && CacheInv(s) && CanLogWrite(s, k) && s.log.phase.Running?
    requires Shape(DoLogWrite(s, k).log) && j < |s.bufs|
    ensures BufOk(DoLogWrite(s, k), DoLogWrite(s, k).bufs[j]) && RefOk(DoLogWrite(s, k), j)
  {
    var b := BufOf(s, k);
    LogBlockPins(s.log, s.tickets[k].owner.id, b.blockno, b.data);
    assert BufOk(s, s.bufs[j]) && RefOk(s, j);
  }

  lemma LogWriteCache(s: State, k: nat)
    requires Shape(s.log) && CacheInv(s) && CanLogWrite(s, k) && s.log.phase.Running?
    requires Shape(DoLogWrite(s, k).log)
    ensures CacheInv(DoLogWrite(s, k))
  {
    var s' := DoLogWrite(s, k);
    forall j | 0 <= j < |s.bufs| ensures BufOk(s', s'.bufs[j]) && RefOk(s', j) { LogWriteBuf(s, k, j); }
    LogWriteShape(s, k);
  }

  lemma LogWriteShape(s: State, k: nat)
    requires CacheShape(s) && CanLogWrite(s, k) && s.log.phase.Running?
    ensures CacheShape(DoLogWrite(s, k))
  {
    var s' := DoLogWrite(s, k);
    PinsKept(s.bufs, s.tickets[k].buf, BufOf(s', k), s.log);
    assert InCache(s'.bufs, BufOf(s, k).blockno);
  }

  lemma LogWriteKeeps(s: State, k: nat)
    requires Inv(s) && CanLogWrite(s, k)
    ensures Inv(DoLogWrite(s, k))
  {
    LogBlockKeeps(s.log, s.tickets[k].owner.id, BufOf(s, k).blockno, BufOf(s, k).data);
    LogWriteCache(s, k);
  }

  lemma BeginOpKeeps(s: State, o: nat)
    requires Inv(s) && CanBeginOp(s, o)
    ensures Inv(DoBeginOp(s, o))
  {
    var s' := DoBeginOp(s, o);
    ReservedAtMost(s.log.ops);
    ReservedOne(s'.log.ops, o);
    assert s'.log.ops - {o} == s.log.ops;
    forall j | 0 <= j < |s.bufs| ensures BufOk(s', s'.bufs[j]) && RefOk(s', j) {
      assert BufOk(s, s.bufs[j]) && RefOk(s, j);
    }
  }

  lemma EndOpKeeps(s: State, o: nat)
    requires Inv(s) && CanEndOp(s, o)
    ensures Inv(DoEndOp(s, o))
  {
    var s' := DoEndOp(s, o);
    ReservedOne(s.log.ops, o);
    assert LogInv(s'.log);
    forall j | 0 <= j < |s.bufs| ensures BufOk(s', s'.bufs[j]) && RefOk(s', j) {
      assert BufOk(s, s.bufs[j]) && RefOk(s, j);
    }
  }

  // ---- steps of commit and recovery


  /** The cache after a bwrite whose effect on the log is already known to be right. */
  lemma BwriteKeeps(s: State, s': State, k: nat)
    requires Shape(s.log) && CacheInv(s) && Has(s, k) && Shape(s'.log)
    requires s'.tickets == s.tickets && |s'.bufs| == |s.bufs|
    requires s'.bufs == s.bufs[s.tickets[k].buf := BufOf(s, k).(data := BufOf(s', k).data)]
    requires s'.log.layout == s.log.layout && s'.log.lh == s.log.lh && FirstPin(s'.log) == FirstPin(s.log)
             && s'.log.ops == s.log.ops
    requires Recovery(s'.log.phase) == Recovery(s.log.phase)
    requires forall b: nat :: b < s.log.layout.nblocks && b != BufOf(s, k).blockno ==> View(s'.log, b) == View(s.log, b)
    requires BufOk(s', BufOf(s', k))
    ensures CacheInv(s')
  {
    forall j | 0 <= j < |s.bufs| ensures BufOk(s', s'.bufs[j]) && RefOk(s', j) {
      assert BufOk(s, s.bufs[j]) && RefOk(s, j);
    }
    PinsKept(s.bufs, s.tickets[k].buf, BufOf(s', k), s.log);
  }

  lemma WriteLogLog(l: Log, l': Log)
    requires LogInv(l) && l.phase.Logging? && l.phase.tail < |l.lh|
    requires l' == l.(disk := l.disk[l.layout.start + 1 + l.phase.tail := l.logical[l.lh[l.phase.tail]]],
                      phase := Logging(l.phase.tail + 1))
    ensures LogInv(l')
  {
    assert forall b :: l.layout.Home(b) ==> l'.disk[b] == l.disk[b];
    assert forall b :: Pinned(l, b) <==> Pinned(l', b);
  }

  lemma WriteLogCache(s: State, to: nat, from: nat)
    requires Shape(s.log) && CacheInv(s) && CanWriteLog(s, to, from) && s.log.ops == map[]
    ensures CacheInv(DoWriteLog(s, to, from))
    ensures BufOf(s, from).data == s.log.logical[s.log.lh[s.log.phase.tail]]
  {
    assert BufOk(s, BufOf(s, from)) && BufOk(s, BufOf(s, to));
    BwriteKeeps(s, DoWriteLog(s, to, from), to);
  }

  lemma WriteLogKeeps(s: State, to: nat, from: nat)
    requires Inv(s) && CanWriteLog(s, to, from)
    ensures Inv(DoWriteLog(s, to, from))
  {
    WriteLogCache(s, to, from);
    WriteLogLog(s.log, DoWriteLog(s, to, from).log);
  }

  /** With every logged block in the log, writing the header commits `logical`. */
  lemma HeadCommits(l: Log)
    requires Shape(l) && DiskOk(l) && l.phase == Logging(|l.lh|) && Logged(l, |l.lh|)
    ensures Recovers(l.layout, l.disk[l.layout.start := EncodeHead(l.disk[l.layout.start], l.lh)], l.logical)
  {
    var h := EncodeHead(l.disk[l.layout.start], l.lh);
    HeadRoundTrip(l.disk[l.layout.start], l.lh);
    forall b | l.layout.Home(b) && !HeadNames(h, b) ensures l.logical[b] == l.disk[b] { HeadNamesPinned(l, h, b); }
    NewHeadRecovers(l, h);
  }

  lemma HeadNamesPinned(l: Log, h: Block, b: int)
    requires l.phase.Logging? && HeadIs(h, l.lh) && !HeadNames(h, b)
    ensures !Pinned(l, b)
  {
    assert forall j :: 0 <= j < |l.lh| ==> HeadEntry(h, j) == l.lh[j];
  }

  lemma NewHeadRecovers(l: Log, h: Block)
    requires Shape(l) && Logged(l, |l.lh|) && HeadIs(h, l.lh)
    requires forall b :: l.layout.Home(b) && !HeadNames(h, b) ==> l.logical[b] == l.disk[b]
    ensures Recovers(l.layout, l.disk[l.layout.start := h], l.logical)
  {
    var d := l.disk[l.layout.start := h];
    forall j | 0 <= j < HeadSize(h) ensures l.logical[HeadEntry(h, j)] == d[l.layout.start + 1 + j] {
      assert HeadEntry(h, j) == l.lh[j];
    }
  }

  lemma WriteHeadLog(l: Log, l': Log)
    requires LogInv(l) && l.phase == Logging(|l.lh|)
    requires l' == l.(disk := l.disk[l.layout.start := EncodeHead(l.disk[l.layout.start], l.lh)],
                      phase := Installing(0), committed := l.logical)
    ensures LogInv(l')
  {
    HeadRoundTrip(l.disk[l.layout.start], l.lh);
    HeadCommits(l);
  }

  lemma WriteHeadKeeps(s: State, k: nat)
    requires Inv(s) && CanWriteHead(s, k)
    ensures Inv(DoWriteHead(s, k))
  {
    var s' := DoWriteHead(s, k);
    assert BufOk(s, BufOf(s, k));
    WriteHeadLog(s.log, s'.log);
    BwriteKeeps(s, s', k);
  }

  function InstallDisk(l: Log): Disk
    requires (l.phase.Installing? || l.phase.Recovering?) && l.phase.tail < |l.lh|
    requires 0 <= l.lh[l.phase.tail] < |l.disk| && l.layout.start + 1 + l.phase.tail < |l.disk|
  {
    l.disk[l.lh[l.phase.tail] := l.disk[l.layout.start + 1 + l.phase.tail]]
  }

  /** One more logged block is home. */
  lemma RecoverInstallHome(l: Log, l': Log)
    requires Shape(l) && l.phase.Recovering? && l.phase.tail < |l.lh|
    requires forall j :: 0 <= j < l.phase.tail ==> l.disk[l.lh[j]] == l.disk[l.layout.start + 1 + j]
    requires l' == l.(disk := InstallDisk(l), phase := Recovering(l.phase.tail + 1))
    ensures Shape(l') && DiskOk(l') && l'.disk[l.layout.start] == l.disk[l.layout.start]
    ensures forall j :: 0 <= j < l'.phase.tail ==> l'.disk[l.lh[j]] == l'.disk[l.layout.start + 1 + j]
  {
    forall j | 0 <= j <= l.phase.tail ensures l'.disk[l.lh[j]] == l'.disk[l.layout.start + 1 + j] {
      assert l.layout.Home(l.lh[j]) && l.layout.Home(l.lh[l.phase.tail]);
    }
  }

  lemma InstallKeepsRecovery(l: Log, d: Disk)
    requires Shape(l) && (l.phase.Installing? || l.phase.Recovering?) && l.phase.tail < |l.lh| && d == InstallDisk(l)
    requires Header(l, l.lh) && Recovers(l.layout, l.disk, l.committed)
    ensures |d| == l.layout.nblocks && d[l.layout.start] == l.disk[l.layout.start] && Recovers(l.layout, d, l.committed)
  {
    InstallRecovers(l.layout, l.disk, l.committed, l.phase.tail);
  }

  lemma RecoverInstallLog(l: Log, l': Log)
    requires LogInv(l) && l.phase.Recovering? && l.phase.tail < |l.lh|
    requires l' == l.(disk := InstallDisk(l), phase := Recovering(l.phase.tail + 1))
    ensures LogInv(l')
  {
    RecoverInstallHome(l, l');
    InstallKeepsRecovery(l, l'.disk);
  }

  lemma InstallDiskOk(l: Log, l': Log)
    requires Shape(l) && DiskOk(l) && l.phase.Installing? && l.phase.tail < |l.lh| && Logged(l, |l.lh|)
    requires l' == l.(disk := InstallDisk(l), phase := Installing(l.phase.tail + 1))
    ensures Shape(l') && DiskOk(l')
  {
    forall b | l.layout.Home(b) && !Pinned(l', b) ensures l'.disk[b] == l'.logical[b] {
      InstallPinned(l, l', b);
      assert l.disk[l.layout.start + 1 + l.phase.tail] == l.logical[l.lh[l.phase.tail]];
    }
  }

  /** One block fewer is pinned. */
  lemma InstallPinned(l: Log, l': Log, b: int)
    requires Shape(l) && l.phase.Installing? && l.phase.tail < |l.lh|
    requires l' == l.(disk := InstallDisk(l), phase := Installing(l.phase.tail + 1))
    ensures Pinned(l, b) <==> Pinned(l', b) || b == l.lh[l.phase.tail]
  {
  }

  lemma InstallLogged(l: Log, l': Log)
    requires Shape(l) && Shape(l') && l.phase.Installing? && l.phase.tail < |l.lh| && Logged(l, |l.lh|)
    requires l' == l.(disk := InstallDisk(l), phase := Installing(l.phase.tail + 1))
    ensures Logged(l', |l.lh|)
  {
    assert l.layout.Home(l.lh[l.phase.tail]);
  }

  lemma InstallLog(l: Log, l': Log)
    requires LogInv(l) && l.phase.Installing? && l.phase.tail < |l.lh|
    requires l' == l.(disk := InstallDisk(l), phase := Installing(l.phase.tail + 1))
    ensures LogInv(l')
  {
    InstallDiskOk(l, l');
    InstallLogged(l, l');
    InstallKeepsRecovery(l, l'.disk);
  }

  /** The step writes the log block's contents to the home block. */
  lemma InstallStepIs(s: State, lbuf: nat, dbuf: nat)
    requires CanInstall(s, lbuf, dbuf) && s.log.layout.start + 1 + s.log.phase.tail < |s.log.disk|
    requires BufOf(s, lbuf).data == s.log.disk[s.log.layout.start + 1 + s.log.phase.tail]
    ensures var l, t := s.log, s.log.phase.tail + 1;
            DoInstall(s, lbuf, dbuf).log ==
                l.(disk := InstallDisk(l), phase := if l.phase.Recovering? then Recovering(t) else Installing(t))
  {
  }

  lemma RecoverInstallCache(s: State, lbuf: nat, dbuf: nat)
    requires Shape(s.log) && CacheInv(s) && CanInstall(s, lbuf, dbuf) && s.log.phase.Recovering?
    requires s.log.ops == map[]
    ensures CacheInv(DoInstall(s, lbuf, dbuf))
    ensures BufOf(s, lbuf).data == s.log.disk[s.log.layout.start + 1 + s.log.phase.tail]
  {
    assert BufOk(s, BufOf(s, lbuf)) && BufOk(s, BufOf(s, dbuf));
    BwriteKeeps(s, DoInstall(s, lbuf, dbuf), dbuf);
  }

  lemma RecoverInstallKeeps(s: State, lbuf: nat, dbuf: nat)
    requires Inv(s) && CanInstall(s, lbuf, dbuf) && s.log.phase.Recovering?
    ensures Inv(DoInstall(s, lbuf, dbuf))
  {
    var l := s.log;
    RecoverInstallCache(s, lbuf, dbuf);
    InstallStepIs(s, lbuf, dbuf);
    RecoverInstallLog(l, DoInstall(s, lbuf, dbuf).log);
  }

  lemma UnpinBuf(s: State, s': State, k: nat, j: nat)
    requires Shape(s.log) && Has(s, k) && Shape(s'.log) && j < |s.bufs| && BufOk(s, s.bufs[j]) && RefOk(s, j)
    requires UniqueOk(s.bufs) && BufOf(s, k).refcnt > 0 && BufOf(s, k).dev == ROOTDEV
    requires s'.bufs == s.bufs[s.tickets[k].buf := BufOf(s, k).(refcnt := BufOf(s, k).refcnt - 1)]
    requires s'.tickets == s.tickets && s'.log.layout == s.log.layout && s'.log.ops == s.log.ops
             && s'.log.lh == s.log.lh
    requires forall x :: Pinned(s.log, x) <==> x == BufOf(s, k).blockno || Pinned(s'.log, x)
    requires !Pinned(s'.log, BufOf(s, k).blockno) && !Recovery(s.log.phase) && !Recovery(s'.log.phase)
    requires forall b: nat :: b < s.log.layout.nblocks ==> View(s'.log, b) == View(s.log, b)
    ensures BufOk(s', s'.bufs[j]) && RefOk(s', j)
  {
  }

  /** The cache after a block has come home and its buffer is unpinned. */
  lemma UnpinKeeps(s: State, s': State, k: nat)
    requires Shape(s.log) && CacheInv(s) && Has(s, k) && Shape(s'.log)
    requires BufOf(s, k).refcnt > 0 && BufOf(s, k).dev == ROOTDEV
    requires s'.bufs == s.bufs[s.tickets[k].buf := BufOf(s, k).(refcnt := BufOf(s, k).refcnt - 1)]
    requires s'.tickets == s.tickets && s'.log.layout == s.log.layout && s'.log.ops == s.log.ops
    requires forall x :: Pinned(s.log, x) <==> x == BufOf(s, k).blockno || Pinned(s'.log, x)
    requires !Pinned(s'.log, BufOf(s, k).blockno)
    requires s'.log.lh == s.log.lh && FirstPin(s.log) <= FirstPin(s'.log)
    requires !Recovery(s.log.phase) && !Recovery(s'.log.phase)
    requires forall b: nat :: b < s.log.layout.nblocks ==> View(s'.log, b) == View(s.log, b)
    ensures CacheInv(s')
  {
    forall j | 0 <= j < |s.bufs| ensures BufOk(s', s'.bufs[j]) && RefOk(s', j) { UnpinBuf(s, s', k, j); }
    PinsKept(s.bufs, s.tickets[k].buf, BufOf(s', k), s.log);
  }

  lemma InstallCache(s: State, lbuf: nat, dbuf: nat)
    requires Shape(s.log) && CacheInv(s) && CanInstall(s, lbuf, dbuf) && s.log.phase.Installing?
    requires s.log.disk[s.log.layout.start + 1 + s.log.phase.tail] == s.log.logical[s.log.lh[s.log.phase.tail]]
    requires s.log.ops == map[]
    ensures CacheInv(DoInstall(s, lbuf, dbuf))
    ensures BufOf(s, lbuf).data == s.log.disk[s.log.layout.start + 1 + s.log.phase.tail]
  {
    assert BufOk(s, BufOf(s, lbuf)) && BufOk(s, BufOf(s, dbuf));
    UnpinKeeps(s, DoInstall(s, lbuf, dbuf), dbuf);
  }

  lemma InstallReady(l: Log)
    requires LogInv(l) && l.phase.Installing? && l.phase.tail < |l.lh|
    ensures l.ops == map[] && 0 <= l.lh[l.phase.tail] < |l.logical| && l.layout.start + 1 + l.phase.tail < |l.disk|
    ensures l.disk[l.layout.start + 1 + l.phase.tail] == l.logical[l.lh[l.phase.tail]]
  {
  }

  lemma InstallKeeps(s: State, lbuf: nat, dbuf: nat)
    requires Inv(s) && CanInstall(s, lbuf, dbuf) && s.log.phase.Installing?
    ensures Inv(DoInstall(s, lbuf, dbuf))
  {
    var l := s.log;
    InstallReady(l);
    InstallCache(s, lbuf, dbuf);
    InstallStepIs(s, lbuf, dbuf);
    InstallLog(l, DoInstall(s, lbuf, dbuf).log);
  }

  /** Once every logged block is home, the disk is the committed state. */
  lemma AllHome(l: Log)
    requires LogInv(l) && (l.phase.Installing? || l.phase.Recovering?) && l.phase.tail == |l.lh|
    ensures SameHome(l.layout, l.disk, l.committed) && SameHome(l.layout, l.disk, l.logical)
  {
    assert forall b :: !Pinned(l, b);
    var h := l.disk[l.layout.start];
    forall b | l.layout.Home(b) ensures l.disk[b] == l.committed[b] {
      if HeadNames(h, b) {
        var j :| 0 <= j < HeadSize(h) && j < LOGSIZE && HeadEntry(h, j) == b;
        assert l.lh[j] == b;
      }
    }
  }

  lemma ClearHeadLog(l: Log, l': Log)
    requires LogInv(l) && (l.phase.Installing? || l.phase.Recovering?) && l.phase.tail == |l.lh|
    requires l' == l.(disk := l.disk[l.layout.start := EncodeHead(l.disk[l.layout.start], [])], lh := [],
                      phase := if l.phase.Recovering? then Running else Committed)
    ensures LogInv(l')
  {
    HeadRoundTrip(l.disk[l.layout.start], []);
    AllHome(l);
    assert Recovers(l'.layout, l'.disk, l'.committed);
  }

  lemma ClearHeadCache(s: State, k: nat)
    requires Shape(s.log) && CacheInv(s) && CanClearHead(s, k) && s.log.ops == map[]
    requires forall b :: s.log.layout.Home(b) ==> s.log.disk[b] == s.log.logical[b]
    ensures CacheInv(DoClearHead(s, k))
    ensures BufOf(s, k).data == s.log.disk[s.log.layout.start]
  {
    var s' := DoClearHead(s, k);
    assert BufOk(s, BufOf(s, k));
    forall j | 0 <= j < |s.bufs| ensures BufOk(s', s'.bufs[j]) && RefOk(s', j) {
      assert BufOk(s, s.bufs[j]) && RefOk(s, j);
    }
  }

  lemma ClearHeadKeeps(s: State, k: nat)
    requires Inv(s) && CanClearHead(s, k)
    ensures Inv(DoClearHead(s, k))
  {
    AllHome(s.log);
    ClearHeadCache(s, k);
    ClearHeadLog(s.log, DoClearHead(s, k).log);
  }

  lemma ReadHeadKeeps(s: State, k: nat)
    requires Inv(s) && CanReadHead(s, k)
    ensures Inv(DoReadHead(s, k))
  {
    var s' := DoReadHead(s, k);
    assert BufOk(s, BufOf(s, k));
    assert LogInv(s'.log);
    forall j | 0 <= j < |s.bufs| ensures BufOk(s', s'.bufs[j]) && RefOk(s', j) {
      assert BufOk(s, s.bufs[j]) && RefOk(s, j);
    }
  }

  lemma FinishCommitKeeps(s: State)
    requires Inv(s) && s.log.phase.Committed?
    ensures Inv(s.(log := s.log.(phase := Running)))
  {
    var s' := s.(log := s.log.(phase := Running));
    assert LogInv(s'.log);
    forall j | 0 <= j < |s.bufs| ensures BufOk(s', s'.bufs[j]) && RefOk(s', j) {
      assert BufOk(s, s.bufs[j]) && RefOk(s, j);
    }
  }

  lemma CrashKeeps(s: State)
    requires Inv(s)
    ensures Inv(DoCrash(s))
  {
    var s' := DoCrash(s);
    assert forall i :: On(s'.tickets, i) == {};
  }

  lemma StepKeeps(s: State, e: Event)
    requires Inv(s) && Enabled(s, e)
    ensures Inv(Apply(s, e))
  {
    match e
    case Get(k, owner, block, i) => GetKeeps(s, k, owner, block, i);
    case Lock(k) => LockKeeps(s, k);
    case Fill(k) => FillKeeps(s, k);
    case Modify(k, data) => ModifyKeeps(s, k, data);
    case LogWrite(k) => LogWriteKeeps(s, k);
    case Release(k) => ReleaseKeeps(s, k);
    case BeginOp(o) => BeginOpKeeps(s, o);
    case EndOp(o) => EndOpKeeps(s, o);
    case WriteLog(to, from) => WriteLogKeeps(s, to, from);
    case WriteHead(k) => WriteHeadKeeps(s, k);
    case Install(lbuf, dbuf) =>
      if s.log.phase.Recovering? { RecoverInstallKeeps(s, lbuf, dbuf); } else { InstallKeeps(s, lbuf, dbuf); }
    case ClearHead(k) => ClearHeadKeeps(s, k);
    case FinishCommit => FinishCommitKeeps(s);
    case ReadHead(k) => ReadHeadKeeps(s, k);
    case Crash => CrashKeeps(s);
  }
}
