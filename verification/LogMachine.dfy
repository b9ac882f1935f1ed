/** The redo log over the buffer cache as a step system: concurrent file-system
    operations and readers, the committing thread, and crashes
    (kernel/log.c, kernel/bio.c). */
module LogMachine {
  import opened Params
  import opened DiskLayout

  /** Who holds a reference to a buffer. */
  datatype Owner = Op(id: nat) | Reader | Kernel

  /** One reference obtained from bget and not yet dropped by brelse. */
  datatype Ticket = Ticket(buf: nat, owner: Owner)

  /** struct buf. `holder` is the reference that holds the sleep lock; `dirty` says that the contents
      were changed and are in neither the log nor `logical`. */
  datatype Buf = Buf(dev: nat, blockno: nat, valid: bool, refcnt: nat,
                     holder: Option<nat>, dirty: bool, data: Block)

  /** The program counter of recovery and of commit. Boot: after a crash, the header not yet read.
      Logging(t): t blocks are in the log, and at t == n the header is next.
      Installing(t) and Recovering(t): t blocks are home, and at t == n the clearing of the header is next.
      Committed: commit has returned and log.committing is still set. */
  datatype Phase =
    | Boot
    | Recovering(tail: nat)
    | Running
    | Logging(tail: nat)
    | Installing(tail: nat)
    | Committed

  /** The disk and struct log. `ops` maps every operation between begin_op and end_op to the distinct
      blocks it has logged, so log.outstanding is |ops|. `logical` and `committed` record what is to be
      and what was committed: the last contents handed to log_write, or released later in a buffer whose
      block was in the header; and the value of `logical` when the commit header last reached the disk. */
  datatype Log = Log(
    layout: Layout, disk: Disk, lh: seq<int>, ops: map<nat, set<int>>, phase: Phase,
    logical: Disk, committed: Disk)

  /** The last contents handed to log_write, for each block; and the same when the commit header last
      reached the disk. */
  datatype History = History(given: Disk, saved: Disk)

  datatype State = State(bufs: seq<Buf>, tickets: map<nat, Ticket>, log: Log, hist: History)

  datatype Event =
    | Get(k: nat, owner: Owner, block: nat, i: nat)
    | Lock(k: nat)
    | Fill(k: nat)
    | Modify(k: nat, data: Block)
    | LogWrite(k: nat)
    | Release(k: nat)
    | BeginOp(o: nat)
    | EndOp(o: nat)
    | WriteLog(to: nat, from: nat)
    | WriteHead(k: nat)
    | Install(lbuf: nat, dbuf: nat)
    | ClearHead(k: nat)
    | FinishCommit
    | ReadHead(k: nat)
    | Crash

  predicate Recovery(p: Phase) {
    p.Boot? || p.Recovering?
  }

  predicate Cached(b: Buf, block: int) {
    b.dev == ROOTDEV && b.blockno == block
  }

  predicate Has(s: State, k: nat) {
    k in s.tickets && s.tickets[k].buf < |s.bufs|
  }

  function BufOf(s: State, k: nat): Buf
    requires Has(s, k)
  {
    s.bufs[s.tickets[k].buf]
  }

  /** Reference k holds the lock of a buffer that caches `block` with valid contents. */
  predicate HoldsValid(s: State, k: nat, block: int) {
    && Has(s, k) && BufOf(s, k).holder == Some(k) && BufOf(s, k).valid && Cached(BufOf(s, k), block)
  }

  /** Reference k, of an open operation, holds the lock of a valid home block. */
  predicate OpHolds(s: State, k: nat) {
    && Has(s, k) && HoldsValid(s, k, BufOf(s, k).blockno)
    && s.tickets[k].owner.Op? && s.tickets[k].owner.id in s.log.ops
    && s.log.layout.Home(BufOf(s, k).blockno)
  }

  /** log_write's first panic. */
  predicate TooBig(l: Log) {
    |l.lh| >= LOGSIZE || |l.lh| >= l.layout.size - 1
  }

  /** begin_op's two waiting conditions are both false. */
  predicate HasRoom(l: Log) {
    l.phase.Running? && |l.lh| + (|l.ops| + 1) * MAXOPBLOCKS <= LOGSIZE
  }

  // ---- the buffer cache

  function SetBuf(s: State, k: nat, b: Buf): State
    requires Has(s, k)
  {
    s.(bufs := s.bufs[s.tickets[k].buf := b])
  }

  /** bwrite of new contents: buffer and disk change together. */
  function Bwrite(s: State, k: nat, data: Block): State
    requires Has(s, k) && BufOf(s, k).blockno < |s.log.disk|
  {
    var b := BufOf(s, k);
    SetBuf(s, k, b.(data := data)).(log := s.log.(disk := s.log.disk[b.blockno := data]))
  }

  /** bget under bcache.lock: a hit adds a reference, otherwise an unreferenced buffer is recycled. */
  predicate CanGet(s: State, k: nat, owner: Owner, block: nat, i: nat) {
    && k !in s.tickets && block < s.log.layout.nblocks && i < |s.bufs|
    && (Recovery(s.log.phase) ==> owner == Kernel)
    && (owner.Op? ==> owner.id in s.log.ops)
    && (Cached(s.bufs[i], block) ||
        (s.bufs[i].refcnt == 0 && forall j :: 0 <= j < |s.bufs| ==> !Cached(s.bufs[j], block)))
  }

  function DoGet(s: State, k: nat, owner: Owner, block: nat, i: nat): State
    requires CanGet(s, k, owner, block, i)
  {
    var b := s.bufs[i];
    var b' := if Cached(b, block) then b.(refcnt := b.refcnt + 1)
              else b.(dev := ROOTDEV, blockno := block, valid := false, refcnt := 1, dirty := false);
    s.(bufs := s.bufs[i := b'], tickets := s.tickets[k := Ticket(i, owner)])
  }

  /** acquiresleep at the end of bget. */
  predicate CanLock(s: State, k: nat) {
    Has(s, k) && BufOf(s, k).holder == None
  }

  function DoLock(s: State, k: nat): State
    requires CanLock(s, k)
  {
    SetBuf(s, k, BufOf(s, k).(holder := Some(k)))
  }

  /** bread's disk read. */
  predicate CanFill(s: State, k: nat) {
    Has(s, k) && BufOf(s, k).holder == Some(k) && !BufOf(s, k).valid && BufOf(s, k).blockno < |s.log.disk|
  }

  function DoFill(s: State, k: nat): State
    requires CanFill(s, k)
  {
    SetBuf(s, k, BufOf(s, k).(valid := true, data := s.log.disk[BufOf(s, k).blockno]))
  }

  /** brelse, whether or not the client has passed its changes to log_write. */
  predicate CanRelease(s: State, k: nat) {
    Has(s, k) && BufOf(s, k).holder == Some(k) && BufOf(s, k).refcnt > 0
  }

  /** The buffer has changes that were not passed to log_write, and its block is in the header: commit
      will write them all the same. */
  predicate Slips(s: State, k: nat) {
    Has(s, k) && BufOf(s, k).dirty && BufOf(s, k).blockno in s.log.lh && BufOf(s, k).blockno < |s.log.logical|
  }

  function DoRelease(s: State, k: nat): State
    requires CanRelease(s, k)
  {
    var b := BufOf(s, k);
    var s' := SetBuf(s, k, b.(holder := None, refcnt := b.refcnt - 1, dirty := b.dirty && !Slips(s, k)))
              .(tickets := s.tickets - {k});
    if Slips(s, k) then s'.(log := s.log.(logical := s.log.logical[b.blockno := b.data])) else s'
  }

  // ---- operations

  /** A client changes the contents of a buffer it has locked inside an operation. */
  function DoModify(s: State, k: nat, data: Block): State
    requires OpHolds(s, k)
  {
    SetBuf(s, k, BufOf(s, k).(data := data, dirty := true))
  }

  /** The operation keeps within its MAXOPBLOCKS distinct blocks. */
  predicate CanLogWrite(s: State, k: nat) {
    && OpHolds(s, k) && BufOf(s, k).blockno < |s.log.logical|
    && |s.log.ops[s.tickets[k].owner.id] + {BufOf(s, k).blockno}| <= MAXOPBLOCKS
    && !TooBig(s.log)
  }

  function LogBlock(l: Log, o: nat, block: nat, data: Block): Log
    requires o in l.ops && block < |l.logical|
  {
    l.(lh := if block in l.lh then l.lh else l.lh + [block],
       ops := l.ops[o := l.ops[o] + {block}],
       logical := l.logical[block := data])
  }

  function DoLogWrite(s: State, k: nat): State
    requires CanLogWrite(s, k)
  {
    var b := BufOf(s, k);
    SetBuf(s, k, b.(dirty := false, refcnt := if b.blockno in s.log.lh then b.refcnt else b.refcnt + 1))
    .(log := LogBlock(s.log, s.tickets[k].owner.id, b.blockno, b.data), hist := Give(s.hist, b.blockno, b.data))
  }

  function Give(h: History, block: nat, data: Block): History {
    if block < |h.given| then h.(given := h.given[block := data]) else h
  }

  predicate CanBeginOp(s: State, o: nat) {
    o !in s.log.ops && HasRoom(s.log)
  }

  function DoBeginOp(s: State, o: nat): State
    requires CanBeginOp(s, o)
  {
    s.(log := s.log.(ops := s.log.ops[o := {}]))
  }

  /** The operation has released the buffers it changed. */
  predicate CanEndOp(s: State, o: nat) {
    && o in s.log.ops
    && forall i :: 0 <= i < |s.bufs| && s.bufs[i].dirty && s.bufs[i].holder.Some? ==>
         s.bufs[i].holder.value in s.tickets && s.tickets[s.bufs[i].holder.value].owner != Op(o)
  }

  /** The last end_op starts the commit. */
  function DoEndOp(s: State, o: nat): State
    requires CanEndOp(s, o)
  {
    var l := s.log;
    var ops := l.ops - {o};
    s.(log := l.(ops := ops,
       phase := if ops != map[] then l.phase else if |l.lh| > 0 then Logging(0) else Committed))
  }

  // ---- commit and recovery

  /** One round of write_log. */
  predicate CanWriteLog(s: State, to: nat, from: nat) {
    var l := s.log;
    && l.phase.Logging? && l.phase.tail < |l.lh|
    && HoldsValid(s, to, l.layout.start + 1 + l.phase.tail)
    && HoldsValid(s, from, l.lh[l.phase.tail])
    && l.layout.start + 1 + l.phase.tail < |l.disk|
  }

  function DoWriteLog(s: State, to: nat, from: nat): State
    requires CanWriteLog(s, to, from)
  {
    var w := Bwrite(s, to, BufOf(s, from).data);
    w.(log := w.log.(phase := Logging(s.log.phase.tail + 1)))
  }

  /** write_head in commit: the commit point. */
  predicate CanWriteHead(s: State, k: nat) {
    && s.log.phase.Logging? && s.log.phase.tail == |s.log.lh| <= LOGSIZE
    && HoldsValid(s, k, s.log.layout.start) && s.log.layout.start < |s.log.disk|
  }

  function DoWriteHead(s: State, k: nat): State
    requires CanWriteHead(s, k)
  {
    var w := Bwrite(s, k, EncodeHead(BufOf(s, k).data, s.log.lh));
    w.(log := w.log.(phase := Installing(0), committed := s.log.logical), hist := s.hist.(saved := s.hist.given))
  }

  /** One round of install_trans; unpins unless recovering. */
  predicate CanInstall(s: State, lbuf: nat, dbuf: nat) {
    var l := s.log;
    && (l.phase.Installing? || l.phase.Recovering?) && l.phase.tail < |l.lh|
    && HoldsValid(s, lbuf, l.layout.start + 1 + l.phase.tail)
    && HoldsValid(s, dbuf, l.lh[l.phase.tail])
    && 0 <= l.lh[l.phase.tail] < |l.disk| && BufOf(s, dbuf).refcnt > 0
  }

  function DoInstall(s: State, lbuf: nat, dbuf: nat): State
    requires CanInstall(s, lbuf, dbuf)
  {
    var t := s.log.phase.tail + 1;
    var w := Bwrite(s, dbuf, BufOf(s, lbuf).data);
    if s.log.phase.Recovering? then w.(log := w.log.(phase := Recovering(t))) else
    SetBuf(w, dbuf, BufOf(w, dbuf).(refcnt := BufOf(w, dbuf).refcnt - 1))
    .(log := w.log.(phase := Installing(t)))
  }

  /** log.lh.n = 0 and the write_head that follows. */
  predicate CanClearHead(s: State, k: nat) {
    && (s.log.phase.Installing? || s.log.phase.Recovering?) && s.log.phase.tail == |s.log.lh|
    && HoldsValid(s, k, s.log.layout.start) && s.log.layout.start < |s.log.disk|
  }

  function DoClearHead(s: State, k: nat): State
    requires CanClearHead(s, k)
  {
    var w := Bwrite(s, k, EncodeHead(BufOf(s, k).data, []));
    w.(log := w.log.(lh := [], phase := if s.log.phase.Recovering? then Running else Committed))
  }

  /** read_head. */
  predicate CanReadHead(s: State, k: nat) {
    s.log.phase.Boot? && HoldsValid(s, k, s.log.layout.start) && 0 <= HeadSize(BufOf(s, k).data) <= LOGSIZE
  }

  function DoReadHead(s: State, k: nat): State
    requires CanReadHead(s, k)
  {
    s.(log := s.log.(lh := DecodeHead(BufOf(s, k).data), phase := Recovering(0)))
  }

  const ZeroBlock: Block := Words(seq(WORDS, i => 0))
  const EmptyBuf: Buf := Buf(0, 0, false, 0, None, false, ZeroBlock)

  /** Only the disk survives. */
  function DoCrash(s: State): State {
    State(seq(NBUF, i => EmptyBuf), map[],
          s.log.(lh := [], ops := map[], phase := Boot, logical := s.log.committed),
          s.hist.(given := s.hist.saved))
  }

  // ---- steps and runs

  predicate Enabled(s: State, e: Event) {
    match e
    case Get(k, owner, block, i) => CanGet(s, k, owner, block, i)
    case Lock(k) => CanLock(s, k)
    case Fill(k) => CanFill(s, k)
    case Modify(k, data) => OpHolds(s, k)
    case LogWrite(k) => CanLogWrite(s, k)
    case Release(k) => CanRelease(s, k)
    case BeginOp(o) => CanBeginOp(s, o)
    case EndOp(o) => CanEndOp(s, o)
    case WriteLog(to, from) => CanWriteLog(s, to, from)
    case WriteHead(k) => CanWriteHead(s, k)
    case Install(lbuf, dbuf) => CanInstall(s, lbuf, dbuf)
    case ClearHead(k) => CanClearHead(s, k)
    case FinishCommit => s.log.phase.Committed?
    case ReadHead(k) => CanReadHead(s, k)
    case Crash => true
  }

  function Apply(s: State, e: Event): State
    requires Enabled(s, e)
  {
    match e
    case Get(k, owner, block, i) => DoGet(s, k, owner, block, i)
    case Lock(k) => DoLock(s, k)
    case Fill(k) => DoFill(s, k)
    case Modify(k, data) => DoModify(s, k, data)
    case LogWrite(k) => DoLogWrite(s, k)
    case Release(k) => DoRelease(s, k)
    case BeginOp(o) => DoBeginOp(s, o)
    case EndOp(o) => DoEndOp(s, o)
    case WriteLog(to, from) => DoWriteLog(s, to, from)
    case WriteHead(k) => DoWriteHead(s, k)
    case Install(lbuf, dbuf) => DoInstall(s, lbuf, dbuf)
    case ClearHead(k) => DoClearHead(s, k)
    case FinishCommit => s.(log := s.log.(phase := Running))
    case ReadHead(k) => DoReadHead(s, k)
    case Crash => DoCrash(s)
  }
}
