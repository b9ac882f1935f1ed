/** filewrite of kernel/file.c: one transaction for each chunk, each within its share of the log. */
module FileWrite {
  import opened Params
  import opened BlockCost
  import opened FsLayout
  import opened FileSystem

  /** The largest chunk: two blocks for each data block, after the i-node, the indirect block and two of slop. */
  const MAXCHUNK: nat := (MAXOPBLOCKS - 1 - 1 - 2) / 2 * BSIZE

  // ---- budgets

  lemma {:induction false} FewElements(s: seq<nat>)
    ensures |Elements(s)| <= |s|
  {
    if s != [] {
      FewElements(s[1..]);
      assert Elements(s) == Elements(s[1..]) + {s[0]};
    }
  }

  lemma Subset(a: set<nat>, b: set<nat>)
    requires a <= b
    ensures |a| <= |b|
  {
    assert b == a + (b - a);
  }

  /** An operation that stays within its reservation: it has logged fewer than MAXOPBLOCKS distinct blocks
      before each of its calls of log_write. */
  ghost predicate InBudget(logged: seq<nat>) {
    forall k :: 0 <= k < |logged| ==> |Elements(logged[..k])| < MAXOPBLOCKS
  }

  /** It is the last call that counts. */
  lemma LastCounts(logged: seq<nat>)
    requires |logged| > 0
    ensures InBudget(logged) <==> |Elements(logged[..|logged| - 1])| < MAXOPBLOCKS
  {
    forall k | 0 <= k < |logged| ensures |Elements(logged[..k])| <= |Elements(logged[..|logged| - 1])| {
      Subset(Elements(logged[..k]), Elements(logged[..|logged| - 1]));
    }
  }

  /** A chunk of at most MAXCHUNK bytes logs at most nine distinct blocks, four of data, four of the bitmap and the
      indirect block, or fewer, before the i-node block, which comes last. */
  lemma ChunkInBudget(offset: nat, n: nat, data: seq<nat>, maps: seq<nat>, ind: nat, logged: seq<nat>)
    requires n <= MAXCHUNK && Bounded(offset, n, |data|, |maps|) && |logged| > 0
    requires forall x :: x in logged[..|logged| - 1] ==> x in data || x in maps || x == ind
    ensures InBudget(logged)
  {
    var before := logged[..|logged| - 1];
    FewElements(data);
    FewElements(maps);
    var all := Elements(data) + Elements(maps) + {ind};
    assert |data| <= 4 && |data| + |maps| <= 8;
    Subset(Elements(before), all);
    LastCounts(logged);
  }

  /** MAXCHUNK is the largest whole number of blocks for which that always holds: of one block more, at an offset inside
      a block, data and bitmap blocks, indirect block and i-node block can be too many. */
  lemma LargestChunk(offset: nat)
    requires offset % BSIZE != 0
    ensures MAXCHUNK % BSIZE == 0 && MAXCHUNK > 0
    ensures forall data: nat, maps: nat :: Bounded(offset, MAXCHUNK, data, maps) ==> data + maps + 2 <= MAXOPBLOCKS
    ensures Bounded(offset, MAXCHUNK + BSIZE, MAXCHUNK / BSIZE + 2, MAXCHUNK / BSIZE + 2)
    ensures MAXCHUNK / BSIZE + 2 + (MAXCHUNK / BSIZE + 2) + 2 > MAXOPBLOCKS
  {
  }

  // ---- one transaction

  /** A file system that agrees with its disk, and whose files have no holes. */
  ghost predicate SnapOk(sb: Super, s: Snap) {
    FsOk(sb, s.bitmap, s.blocks, s.inodes, s.slots) && NoHolesIn(s) && SyncedBut(sb, s.blocks, s.inodes, {})
  }

  /** A transaction: the first byte of the source it writes, the file offset it finds, the state before and after it,
      and what writei returned. */
  datatype Tx = Tx(at: nat, off: nat, before: Snap, r: int, after: Snap) {
    /** Where it leaves the offset. */
    function Next(): nat {
      off + if r > 0 then r else 0
    }
  }

  /** The transaction writes `piece` at `off` of file i and nothing else, within its share of the log; everything it
      changes is logged but for a block cut short; one free block goes to each slot that needs one; and disk and memory
      agree when it ends. Of the inodes it changes only size and addresses of inode i. */
  ghost predicate TxOk(sb: Super, s: Snap, r: int, s': Snap, i: nat, off: nat, piece: seq<int>, room: nat) {
    && SnapOk(sb, s') && Seen(s, r, s', i, off, piece, room)
    && s.logged == [] && InBudget(s'.logged)
    && Logged(sb, s, s', if r < 0 then {} else Torn(s'.slots[i], off, |piece|, r))
    && (r >= 0 ==> PaidFor(s, s', i, Reach(off, |piece|, room))) && Resized(s, s', i)
  }

  /** writei of n bytes at `off` panics in balloc: it gets past its checks, and the free blocks do not go round. */
  ghost predicate Panics(s: Snap, i: nat, off: nat, n: nat, room: nat) {
    i < |s.inodes| && off <= s.inodes[i].size && off + n <= MAXFILE * BSIZE && BrokeAt(s, i, Reach(off, n, room))
  }

  lemma TxNoPanic(sb: Super, s: Snap, r: int, s': Snap, i: nat, off: nat, piece: seq<int>, room: nat)
    requires TxOk(sb, s, r, s', i, off, piece, room)
    ensures !Panics(s, i, off, |piece|, room)
  {
    if r >= 0 {
      PaidNotBroke(s.bitmap, s.slots[i], s'.bitmap, s'.slots[i], Reach(off, |piece|, room));
    } else {
      assert |FilesOf(s)[i]| == s.inodes[i].size;
    }
  }

  /** What that says of the files. */
  ghost predicate Seen(s: Snap, r: int, s': Snap, i: nat, off: nat, piece: seq<int>, room: nat) {
    && i < |s.inodes| == |s'.inodes| == |s.slots| == |s'.slots|
    && SeenFiles(FilesOf(s), r, FilesOf(s'), i, off, piece, room)
  }

  ghost predicate SeenFiles(f: seq<seq<int>>, r: int, f': seq<seq<int>>, i: nat, off: nat, piece: seq<int>, room: nat) {
    && i < |f| && Result(f[i], off, piece, room, r)
    && f' == f[i := After(f[i], off, piece, room, r)]
  }

  /** The writei of a transaction. None stands for a panic in balloc. */
  method Chunk(fs: Fs, i: nat, off: nat, piece: seq<int>, room: nat) returns (r: Option<int>)
    requires SnapOk(fs.sb, fs.S()) && fs.logged == [] && i < |fs.inodes| && |piece| <= MAXCHUNK && off < 0x1_0000_0000
    requires forall j :: 0 <= j < |piece| ==> 0 <= piece[j] < 256
    modifies fs`bitmap, fs`blocks, fs`inodes, fs`logged, fs`slots
    ensures |fs.inodes| == |old(fs.inodes)|
    ensures r.Some? ==> TxOk(fs.sb, old(fs.S()), r.value, fs.S(), i, off, piece, room)
    ensures r.None? <==> Panics(old(fs.S()), i, off, |piece|, room)
  {
    ghost var data, maps;
    r, data, maps := fs.Writei(i, off, piece, room);
    if r.Some? {
      DoneOk(fs.sb, old(fs.S()), fs.S(), i, off, piece, room, r.value, data, maps);
    }
  }

  lemma DoneOk(sb: Super, s: Snap, s': Snap, i: nat, off: nat, piece: seq<int>, room: nat, r: int, data: seq<nat>,
               maps: seq<nat>)
    requires SyncedBut(sb, s.blocks, s.inodes, {}) && WriteDone(sb, s, s', i, off, piece, room, r, data, maps)
             && s.logged == []
    requires |piece| <= MAXCHUNK && FsOk(sb, s'.bitmap, s'.blocks, s'.inodes, s'.slots)
    requires r >= 0 ==> PaidFor(s, s', i, Reach(off, |piece|, room))
    ensures TxOk(sb, s, r, s', i, off, piece, room)
  {
    SyncedStill(sb, s.blocks, s.inodes, i);
    if r >= 0 {
      DoneBudget(sb, s, s', i, off, piece, room, r, data, maps);
    }
  }

  lemma SyncedStill(sb: Super, blocks: seq<Block>, inodes: seq<Inode>, i: nat)
    requires SyncedBut(sb, blocks, inodes, {})
    ensures SyncedBut(sb, blocks, inodes, {i})
  {
    forall j | 0 <= j < |inodes| && j != i
      ensures IBlock(sb, j) < |blocks| && blocks[IBlock(sb, j)].Valid() && OnDisk(sb, blocks, j) == inodes[j]
    {
      assert j !in {} && inodes[j] == inodes[j];
    }
  }

  lemma DoneBudget(sb: Super, s: Snap, s': Snap, i: nat, off: nat, piece: seq<int>, room: nat, r: int, data: seq<nat>,
                   maps: seq<nat>)
    requires WriteDone(sb, s, s', i, off, piece, room, r, data, maps) && r >= 0 && s.logged == [] && |piece| <= MAXCHUNK
    ensures InBudget(s'.logged)
  {
    var lg :| s'.logged == lg + [IBlock(sb, i)] && LoggedOnly([], lg, s'.slots[i], data, maps);
    assert s'.logged[..|s'.logged| - 1] == lg;
    ChunkInBudget(off, |piece|, data, maps, s'.slots[i][NDIRECT], s'.logged);
  }

  // ---- a call as a chain of transactions, whatever each of them does

  /** How far a chunk that begins at byte `at` of n reaches. */
  function ChunkEnd(n: nat, at: nat): nat {
    if at + MAXCHUNK < n then at + MAXCHUNK else n
  }

  /** What may be said of a transaction: its byte of the source, the offset, the state before, the result and the state
      after. */
  type Rule = (nat, nat, Snap, int, Snap) -> bool

  /** What the others leave behind between two transactions: a file system, and the offset if they share it. */
  datatype Turn = Turn(snap: Snap, off: nat)

  /** begin_op: nothing is logged yet. */
  function Fresh(s: Snap): Snap {
    s.(logged := [])
  }

  /** The state transaction k finds: what the others have made of the file system since the one before. */
  ghost function Found(s0: Snap, txs: seq<Tx>, others: seq<Turn>, k: nat): Snap
    requires k <= |txs|
  {
    Fresh(if k == 0 then s0 else if k - 1 < |others| then others[k - 1].snap else txs[k - 1].after)
  }

  ghost function FoundOff(off0: nat, txs: seq<Tx>, others: seq<Turn>, k: nat): nat
    requires k <= |txs|
  {
    if k == 0 then off0 else if k - 1 < |others| then others[k - 1].off else txs[k - 1].Next()
  }

  /** Where chunk k begins. */
  ghost function Begin(n: nat, txs: seq<Tx>, k: nat): nat
    requires k <= |txs|
  {
    if k == 0 then 0 else ChunkEnd(n, txs[k - 1].at)
  }

  ghost predicate TxAt(s0: Snap, off0: nat, txs: seq<Tx>, others: seq<Turn>, n: nat, ok: Rule, k: nat)
    requires k < |txs|
  {
    && txs[k].at == Begin(n, txs, k) < n
    && txs[k].before == Found(s0, txs, others, k) && txs[k].off == FoundOff(off0, txs, others, k)
    && ok(txs[k].at, txs[k].off, txs[k].before, txs[k].r, txs[k].after)
  }

  /** All of the chunk was written. */
  ghost predicate Full(n: nat, tx: Tx) {
    tx.at + tx.r == ChunkEnd(n, tx.at)
  }

  /** The transactions of one call, all but perhaps the last of which wrote all they had to. */
  ghost predicate Calls(s0: Snap, off0: nat, txs: seq<Tx>, others: seq<Turn>, n: nat, ok: Rule) {
    && (forall k {:trigger TxAt(s0, off0, txs, others, n, ok, k)} :: 0 <= k < |txs| ==>
        TxAt(s0, off0, txs, others, n, ok, k))
    && (forall k {:trigger Full(n, txs[k])} :: 0 <= k < |txs| - 1 ==> Full(n, txs[k]))
  }

  /** Each transaction takes up where a full chunk ended. */
  lemma {:induction false} TxBegins(s0: Snap, off0: nat, txs: seq<Tx>, others: seq<Turn>, n: nat, ok: Rule, k: nat)
    requires Calls(s0, off0, txs, others, n, ok) && k < |txs|
    ensures txs[k].at == k * MAXCHUNK < n
    ensures k == |txs| - 1 && Full(n, txs[k]) && ChunkEnd(n, txs[k].at) == n ==> n <= |txs| * MAXCHUNK
  {
    assert TxAt(s0, off0, txs, others, n, ok, k);
    if k > 0 { TxBegins(s0, off0, txs, others, n, ok, k - 1); }
  }

  /** What it returns for n bytes, and where it leaves the offset. */
  ghost predicate Returns(txs: seq<Tx>, off0: nat, n: nat, ret: int, off: nat) {
    if txs == [] then ret == 0 && off == off0 && n == 0
    else
      var tx := txs[|txs| - 1];
      && off == tx.Next()
      && if Full(n, tx) then ret == n && ChunkEnd(n, tx.at) == n else ret == -1
  }

  lemma OneMore(s0: Snap, off0: nat, txs: seq<Tx>, others: seq<Turn>, n: nat, ok: Rule, tx: Tx)
    requires Calls(s0, off0, txs, others, n, ok) && (|txs| > 0 ==> Full(n, txs[|txs| - 1]))
    requires tx.at == Begin(n, txs, |txs|) < n && tx.before == Found(s0, txs, others, |txs|)
    requires tx.off == FoundOff(off0, txs, others, |txs|) && ok(tx.at, tx.off, tx.before, tx.r, tx.after)
    ensures Calls(s0, off0, txs + [tx], others, n, ok)
  {
    var all := txs + [tx];
    forall k | 0 <= k < |all| ensures TxAt(s0, off0, all, others, n, ok, k) {
      if k < |txs| { assert TxAt(s0, off0, txs, others, n, ok, k); }
    }
    forall k | 0 <= k < |all| - 1 ensures Full(n, all[k]) { assert all[k] == txs[k] && Full(n, txs[k]); }
  }

  // ---- filewrite

  function Piece(src: seq<int>, at: nat): seq<int> {
    if at <= |src| then src[at..ChunkEnd(|src|, at)] else []
  }

  /** How much of the source beyond the first `at` bytes can be read. */
  function Left(room: nat, at: nat): nat {
    if at < room then room - at else 0
  }

  /** Each transaction writes its piece of src. */
  ghost function Writes(sb: Super, i: nat, src: seq<int>, room: nat): Rule {
    (at: nat, off: nat, s, r, s') => TxOk(sb, s, r, s', i, off, Piece(src, at), Left(room, at))
  }

  ghost predicate OthersOk(sb: Super, others: seq<Turn>, n: nat) {
    forall k :: 0 <= k < |others| ==>
      SnapOk(sb, others[k].snap) && |others[k].snap.inodes| == n && others[k].off < 0x1_0000_0000
  }

  /** The others have their turn, and a transaction begins. */
  method Interfere(fs: Fs, off: nat, others: seq<Turn>, c: nat) returns (off': nat)
    requires SnapOk(fs.sb, fs.S()) && OthersOk(fs.sb, others, |fs.inodes|) && off < 0x1_0000_0000
    modifies fs`bitmap, fs`blocks, fs`inodes, fs`logged, fs`slots
    ensures fs.S() == Fresh(if 0 < c <= |others| then others[c - 1].snap else old(fs.S()))
    ensures off' == if 0 < c <= |others| then others[c - 1].off else off
    ensures SnapOk(fs.sb, fs.S()) && |fs.inodes| == |old(fs.inodes)| && off' < 0x1_0000_0000
  {
    ghost var s1 := if 0 < c <= |others| then others[c - 1].snap else fs.S();
    off' := off;
    if 0 < c <= |others| {
      var s := others[c - 1].snap;
      fs.bitmap, fs.blocks, fs.inodes := s.bitmap, s.blocks, s.inodes;
      fs.slots := s.slots;
      off' := others[c - 1].off;
    }
    fs.logged := [];
    FreshOk(fs.sb, s1);
  }

  lemma FreshOk(sb: Super, s: Snap)
    requires SnapOk(sb, s)
    ensures SnapOk(sb, Fresh(s))
  {
  }

  /** One turn of the others, and one transaction. */
  method ChunkRound(fs: Fs, i: nat, off: nat, src: seq<int>, room: nat, others: seq<Turn>, k: nat, c: nat)
    returns (r: Option<int>, off': nat, ghost tx: Tx)
    requires SnapOk(fs.sb, fs.S()) && OthersOk(fs.sb, others, |fs.inodes|)
    requires k < |src| && off < 0x1_0000_0000 && i < |fs.inodes| && forall j :: 0 <= j < |src| ==> 0 <= src[j] < 256
    modifies fs`bitmap, fs`blocks, fs`inodes, fs`logged, fs`slots
    ensures tx.at == k && tx.before == Fresh(if 0 < c <= |others| then others[c - 1].snap else old(fs.S()))
    ensures tx.off == (if 0 < c <= |others| then others[c - 1].off else off) && |fs.inodes| == |old(fs.inodes)|
    ensures r.Some? ==>
              && tx.r == r.value && tx.after == fs.S() && off' == tx.Next() < 0x1_0000_0000
              && k + r.value <= ChunkEnd(|src|, k)
              && SnapOk(fs.sb, fs.S()) && Writes(fs.sb, i, src, room)(k, tx.off, tx.before, tx.r, tx.after)
    ensures r.None? <==> Panics(tx.before, i, tx.off, |Piece(src, k)|, Left(room, k))
  {
    var found := Interfere(fs, off, others, c);
    r, off', tx := ChunkTx(fs, i, found, src, room, k);
  }

  /** A transaction, and the offset after it. */
  method ChunkTx(fs: Fs, i: nat, off: nat, src: seq<int>, room: nat, k: nat)
      returns (r: Option<int>, off': nat, ghost tx: Tx)
    requires SnapOk(fs.sb, fs.S()) && fs.logged == [] && k < |src| && off < 0x1_0000_0000 && i < |fs.inodes|
    requires forall j :: 0 <= j < |src| ==> 0 <= src[j] < 256
    modifies fs`bitmap, fs`blocks, fs`inodes, fs`logged, fs`slots
    ensures |fs.inodes| == |old(fs.inodes)| && tx.at == k && tx.before == old(fs.S()) && tx.off == off
    ensures r.Some? ==>
              && tx.r == r.value && tx.after == fs.S() && off' == tx.Next() < 0x1_0000_0000
              && k + r.value <= ChunkEnd(|src|, k)
              && SnapOk(fs.sb, fs.S()) && Writes(fs.sb, i, src, room)(k, off, tx.before, tx.r, tx.after)
    ensures r.None? <==> Panics(old(fs.S()), i, off, |Piece(src, k)|, Left(room, k))
  {
    off' := off;
    r := Chunk(fs, i, off, Piece(src, k), Left(room, k));
    tx := Tx(k, off, old(fs.S()), if r.Some? then r.value else 0, fs.S());
    if r.Some? {
      WritesOk(fs.sb, i, src, room, k, off, old(fs.S()), r.value, fs.S());
      if r.value > 0 {
        off' := off + r.value;
      }
    }
  }

  lemma WritesOk(sb: Super, i: nat, src: seq<int>, room: nat, at: nat, off: nat, s: Snap, r: int, s': Snap)
    requires at < |src|
    ensures Writes(sb, i, src, room)(at, off, s, r, s') <==> TxOk(sb, s, r, s', i, off, Piece(src, at), Left(room, at))
    ensures Writes(sb, i, src, room)(at, off, s, r, s') ==>
              && SnapOk(sb, s') && Seen(s, r, s', i, off, Piece(src, at), Left(room, at))
              && at + r <= ChunkEnd(|src|, at)
              && (r >= 0 ==> off + r <= MAXFILE * BSIZE)
  {
  }

  /** What filewrite's loop keeps: all transactions so far wrote all they had to, up to byte k. */
  ghost predicate Going(s0: Snap, off0: nat, txs: seq<Tx>, others: seq<Turn>, n: nat, ok: Rule, s: Snap, off: nat,
                        k: nat)
  {
    && Calls(s0, off0, txs, others, n, ok) && k == Begin(n, txs, |txs|) <= n
    && (if txs == [] then s == s0 && off == off0
        else var tx := txs[|txs| - 1]; s == tx.after && off == tx.Next() && Full(n, tx))
  }

  lemma GoingOn(s0: Snap, off0: nat, txs: seq<Tx>, others: seq<Turn>, n: nat, ok: Rule, s: Snap, off: nat, k: nat,
                tx: Tx)
    requires Going(s0, off0, txs, others, n, ok, s, off, k) && k < n && tx.at == k
    requires tx.before == Fresh(if 0 < |txs| <= |others| then others[|txs| - 1].snap else s)
    requires tx.off == (if 0 < |txs| <= |others| then others[|txs| - 1].off else off)
             && ok(tx.at, tx.off, tx.before, tx.r, tx.after)
    ensures Calls(s0, off0, txs + [tx], others, n, ok)
    ensures Full(n, tx) ==> Going(s0, off0, txs + [tx], others, n, ok, tx.after, tx.Next(), ChunkEnd(n, k))
  {
    OneMore(s0, off0, txs, others, n, ok, tx);
    assert (txs + [tx])[|txs|] == tx;
  }

  /** All transactions so far wrote all they had to, and the next one panics. */
  ghost predicate PanicsNext(s0: Snap, off0: nat, txs: seq<Tx>, others: seq<Turn>, i: nat, src: seq<int>, room: nat) {
    var at := Begin(|src|, txs, |txs|);
    && at < |src| && (txs != [] ==> Full(|src|, txs[|txs| - 1]))
    && Panics(Found(s0, txs, others, |txs|), i, FoundOff(off0, txs, others, |txs|), |Piece(src, at)|, Left(room, at))
  }

  lemma GoingPanics(s0: Snap, off0: nat, txs: seq<Tx>, others: seq<Turn>, i: nat, src: seq<int>, room: nat, ok: Rule,
                    s: Snap, off: nat, k: nat, tx: Tx)
    requires Going(s0, off0, txs, others, |src|, ok, s, off, k) && k < |src| && tx.at == k
    requires tx.before == Fresh(if 0 < |txs| <= |others| then others[|txs| - 1].snap else s)
    requires tx.off == if 0 < |txs| <= |others| then others[|txs| - 1].off else off
    requires Panics(tx.before, i, tx.off, |Piece(src, k)|, Left(room, k))
    ensures PanicsNext(s0, off0, txs, others, i, src, room)
  {
  }

  /** One round of filewrite. */
  method WriteChunk(fs: Fs, i: nat, off: nat, src: seq<int>, room: nat, others: seq<Turn>, k: nat, c: nat,
                    ghost s0: Snap, ghost off0: nat, ghost txs: seq<Tx>)
    returns (r: Option<int>, off': nat, ghost tx: Tx)
    requires Going(s0, off0, txs, others, |src|, Writes(fs.sb, i, src, room), fs.S(), off, k) && c == |txs|
    requires SnapOk(fs.sb, fs.S()) && OthersOk(fs.sb, others, |fs.inodes|)
    requires k < |src| && off < 0x1_0000_0000 && i < |fs.inodes| && forall j :: 0 <= j < |src| ==> 0 <= src[j] < 256
    modifies fs`bitmap, fs`blocks, fs`inodes, fs`logged, fs`slots
    ensures |fs.inodes| == |old(fs.inodes)|
    ensures r.Some? ==>
              && tx.at == k && tx.r == r.value && tx.after == fs.S() && off' == tx.Next() < 0x1_0000_0000
              && Calls(s0, off0, txs + [tx], others, |src|, Writes(fs.sb, i, src, room)) && SnapOk(fs.sb, fs.S())
              && (k + r.value == ChunkEnd(|src|, k) ==>
                    Going(s0, off0, txs + [tx], others, |src|, Writes(fs.sb, i, src, room), fs.S(), off', k + r.value))
    ensures r.None? ==> PanicsNext(s0, off0, txs, others, i, src, room)
  {
    ghost var s := fs.S();
    r, off', tx := ChunkRound(fs, i, off, src, room, others, k, c);
    if r.Some? {
      GoingOn(s0, off0, txs, others, |src|, Writes(fs.sb, i, src, room), s, off, k, tx);
    } else {
      GoingPanics(s0, off0, txs, others, i, src, room, Writes(fs.sb, i, src, room), s, off, k, tx);
    }
  }

  /** filewrite for an inode. `room` bytes of the source can be read; between two transactions others may turn the file
      system into any state it can be in, and move the offset, as `others` says; None stands for a panic in balloc. */
  method Filewrite(fs: Fs, i: nat, off0: nat, src: seq<int>, room: nat, others: seq<Turn>)
    returns (ret: Option<int>, off: nat, ghost txs: seq<Tx>)
    requires SnapOk(fs.sb, fs.S()) && i < |fs.inodes| && off0 < 0x1_0000_0000
    requires forall k :: 0 <= k < |src| ==> 0 <= src[k] < 256
    requires OthersOk(fs.sb, others, |fs.inodes|)
    modifies fs`bitmap, fs`blocks, fs`inodes, fs`logged, fs`slots
    ensures Calls(old(fs.S()), off0, txs, others, |src|, Writes(fs.sb, i, src, room))
    ensures ret.None? ==> PanicsNext(old(fs.S()), off0, txs, others, i, src, room)
    ensures ret.Some? ==>
              && Returns(txs, off0, |src|, ret.value, off)
              && fs.S() == (if txs == [] then old(fs.S()) else txs[|txs| - 1].after)
  {
    off, txs := off0, [];
    ghost var s0 := fs.S();
    var k, c := 0, 0;
    while k < |src|
      invariant c == |txs| && off < 0x1_0000_0000 && SnapOk(fs.sb, fs.S()) && |fs.inodes| == |s0.inodes|
      invariant Going(s0, off0, txs, others, |src|, Writes(fs.sb, i, src, room), fs.S(), off, k)
    {
      var n1 := if |src| - k > MAXCHUNK then MAXCHUNK else |src| - k;
      var r;
      ghost var tx;
      r, off, tx := WriteChunk(fs, i, off, src, room, others, k, c, s0, off0, txs);
      if r.None? {
        return None, off, txs;
      }
      txs := txs + [tx];
      if r.value != n1 {
        return Some(-1), off, txs;
      }
      k := k + r.value;
      c := c + 1;
    }
    ret := Some(|src|);
  }

  // ---- alone

  /** A transaction as the files see it. */
  datatype Step = Step(at: nat, off: nat, before: seq<seq<int>>, r: int, after: seq<seq<int>>)

  ghost predicate Whole(n: nat, st: Step) {
    st.at + st.r == ChunkEnd(n, st.at)
  }

  ghost predicate StepAt(base: seq<seq<int>>, off0: nat, steps: seq<Step>, i: nat, src: seq<int>, room: nat, k: nat)
    requires k < |steps|
  {
    && steps[k].at == (if k == 0 then 0 else ChunkEnd(|src|, steps[k - 1].at)) < |src|
    && steps[k].off == (if k == 0 then off0 else steps[k - 1].off + steps[k - 1].r)
    && steps[k].before == (if k == 0 then base else steps[k - 1].after)
    && SeenFiles(steps[k].before, steps[k].r, steps[k].after, i, steps[k].off, Piece(src, steps[k].at),
                 Left(room, steps[k].at))
    && (k < |steps| - 1 ==> Whole(|src|, steps[k]))
  }

  ghost predicate StepsOk(base: seq<seq<int>>, off0: nat, steps: seq<Step>, i: nat, src: seq<int>, room: nat) {
    forall k {:trigger StepAt(base, off0, steps, i, src, room, k)} :: 0 <= k < |steps| ==>
        StepAt(base, off0, steps, i, src, room, k)
  }

  /** The file once the first n bytes of src are written at off0. */
  ghost function Written(f: seq<int>, off0: nat, src: seq<int>, n: nat): seq<int> {
    if off0 <= |f| && n <= |src| then Splice(f, off0, src[..n]) else f
  }

  /** A chunk that was written in full. */
  lemma Adds(f: seq<int>, off0: nat, src: seq<int>, at: nat, r: int, left: nat)
    requires at < |src| && at + r == ChunkEnd(|src|, at) && (at > 0 ==> off0 <= |f|)
    requires Result(Written(f, off0, src, at), off0 + at, Piece(src, at), left, r)
    ensures off0 <= |f| && off0 + at + r <= MAXFILE * BSIZE && r <= left
    ensures After(Written(f, off0, src, at), off0 + at, Piece(src, at), left, r) ==
            Written(f, off0, src, ChunkEnd(|src|, at))
  {
    InFile(f, off0, src, at, r, left);
    AddsIn(f, off0, src, at, Piece(src, at), r, left, Splice(f, off0, src[..at]));
  }

  lemma InFile(f: seq<int>, off0: nat, src: seq<int>, at: nat, r: int, left: nat)
    requires at < |src| && at + r == ChunkEnd(|src|, at) && (at > 0 ==> off0 <= |f|)
    requires Result(Written(f, off0, src, at), off0 + at, Piece(src, at), left, r)
    ensures off0 <= |f| && off0 + at + r <= MAXFILE * BSIZE && r <= left && r == |Piece(src, at)|
  {
  }

  lemma AddsIn(f: seq<int>, off0: nat, src: seq<int>, at: nat, piece: seq<int>, r: nat, left: nat, g: seq<int>)
    requires off0 <= |f| && at + r <= |src| && piece == src[at..at + r] && g == Splice(f, off0, src[..at])
    requires Result(g, off0 + at, piece, left, r) && r <= left && off0 + at + r <= MAXFILE * BSIZE
    ensures After(g, off0 + at, piece, left, r) == Splice(f, off0, src[..at + r])
  {
    AfterAll(g, off0 + at, piece, left, r);
    SpliceMore(f, off0, src, at, r);
  }

  /** One that was not. */
  lemma Falls(f: seq<int>, off0: nat, src: seq<int>, at: nat, r: int, room: nat)
    requires at < |src| && at + r != ChunkEnd(|src|, at)
    requires Result(Written(f, off0, src, at), off0 + at, Piece(src, at), Left(room, at), r)
    ensures !(off0 <= |f| && off0 + |src| <= MAXFILE * BSIZE && |src| <= room)
  {
  }

  lemma Twice(base: seq<seq<int>>, i: nat, x: seq<int>, y: seq<int>)
    requires i < |base|
    ensures base[i := x][i] == x && base[i := x][i := y] == base[i := y]
  {
  }

  /** The chunks before byte `at` are in place, and the other files as they were. */
  ghost predicate InPlace(base: seq<seq<int>>, i: nat, off0: nat, src: seq<int>, at: nat, off: nat, f: seq<seq<int>>) {
    && i < |base| && at <= |src| && off == off0 + at && f == base[i := Written(base[i], off0, src, at)]
    && (at > 0 ==> off0 <= |base[i]|)
  }

  lemma Carries(base: seq<seq<int>>, i: nat, off0: nat, src: seq<int>, room: nat, st: Step)
    requires InPlace(base, i, off0, src, st.at, st.off, st.before) && st.at < |src| && Whole(|src|, st)
    requires SeenFiles(st.before, st.r, st.after, i, st.off, Piece(src, st.at), Left(room, st.at))
    ensures InPlace(base, i, off0, src, ChunkEnd(|src|, st.at), st.off + st.r, st.after)
    ensures off0 + ChunkEnd(|src|, st.at) <= MAXFILE * BSIZE && ChunkEnd(|src|, st.at) <= room
  {
    Twice(base, i, Written(base[i], off0, src, st.at), Written(base[i], off0, src, ChunkEnd(|src|, st.at)));
    Adds(base[i], off0, src, st.at, st.r, Left(room, st.at));
  }

  /** A transaction finds all chunks before its own in place. */
  lemma {:induction false} Finds(base: seq<seq<int>>, off0: nat, steps: seq<Step>, i: nat, src: seq<int>, room: nat,
                                 k: nat)
    requires StepsOk(base, off0, steps, i, src, room) && k < |steps| && InPlace(base, i, off0, src, 0, off0, base)
    ensures steps[k].at < |src| && InPlace(base, i, off0, src, steps[k].at, steps[k].off, steps[k].before)
  {
    assert StepAt(base, off0, steps, i, src, room, k);
    if k > 0 {
      Finds(base, off0, steps, i, src, room, k - 1);
      assert StepAt(base, off0, steps, i, src, room, k - 1);
      Carries(base, i, off0, src, room, steps[k - 1]);
    }
  }

  lemma Begins(base: seq<seq<int>>, i: nat, off0: nat, src: seq<int>)
    requires i < |base|
    ensures InPlace(base, i, off0, src, 0, off0, base)
  {
    assert off0 <= |base[i]| ==> Splice(base[i], off0, src[..0]) == base[i];
  }

  lemma LastStep(base: seq<seq<int>>, i: nat, off0: nat, src: seq<int>, room: nat, st: Step)
    requires InPlace(base, i, off0, src, st.at, st.off, st.before) && st.at < |src|
    requires SeenFiles(st.before, st.r, st.after, i, st.off, Piece(src, st.at), Left(room, st.at))
    requires Whole(|src|, st) ==> ChunkEnd(|src|, st.at) == |src|
    ensures Whole(|src|, st) <==> off0 <= |base[i]| && off0 + |src| <= MAXFILE * BSIZE && |src| <= room
    ensures Whole(|src|, st) ==> InPlace(base, i, off0, src, |src|, st.off + st.r, st.after)
  {
    Twice(base, i, Written(base[i], off0, src, st.at), []);
    if Whole(|src|, st) {
      Carries(base, i, off0, src, room, st);
    } else {
      Falls(base[i], off0, src, st.at, st.r, room);
    }
  }

  ghost function StepOf(tx: Tx): Step {
    if |tx.before.slots| == |tx.before.inodes| && |tx.after.slots| == |tx.after.inodes|
    then Step(tx.at, tx.off, FilesOf(tx.before), tx.r, FilesOf(tx.after)) else Step(tx.at, tx.off, [], tx.r, [])
  }

  ghost function StepsOf(txs: seq<Tx>): (s: seq<Step>)
    ensures |s| == |txs| && forall k :: 0 <= k < |s| ==> s[k] == StepOf(txs[k])
  {
    seq(|txs|, k requires 0 <= k < |txs| => StepOf(txs[k]))
  }

  lemma WritesSeen(sb: Super, i: nat, src: seq<int>, room: nat, tx: Tx)
    requires Writes(sb, i, src, room)(tx.at, tx.off, tx.before, tx.r, tx.after)
    ensures |tx.before.slots| == |tx.before.inodes| && |tx.after.slots| == |tx.after.inodes|
    ensures SeenFiles(StepOf(tx).before, tx.r, StepOf(tx).after, i, tx.off, Piece(src, tx.at), Left(room, tx.at))
  {
  }

  lemma FreshFiles(s: Snap)
    requires |s.slots| == |s.inodes|
    ensures FilesOf(Fresh(s)) == FilesOf(s)
  {
  }

  /** The files a transaction finds are those the one before left. */
  lemma StepAtOf(s0: Snap, off0: nat, txs: seq<Tx>, i: nat, src: seq<int>, room: nat, k: nat)
    requires k < |txs| && txs[k].at == Begin(|src|, txs, k) < |src| && |s0.slots| == |s0.inodes|
    requires txs[k].before == Found(s0, txs, [], k) && txs[k].off == FoundOff(off0, txs, [], k)
    requires |txs[k].before.slots| == |txs[k].before.inodes| && |txs[k].after.slots| == |txs[k].after.inodes|
    requires SeenFiles(StepOf(txs[k]).before, txs[k].r, StepOf(txs[k]).after, i, txs[k].off, Piece(src, txs[k].at),
                       Left(room, txs[k].at))
    requires k > 0 ==> |txs[k - 1].before.slots| == |txs[k - 1].before.inodes| && txs[k - 1].r >= 0
    requires k < |txs| - 1 ==> Full(|src|, txs[k])
    ensures StepAt(FilesOf(s0), off0, StepsOf(txs), i, src, room, k)
  {
    FreshFiles(if k == 0 then s0 else txs[k - 1].after);
    assert StepsOf(txs)[k] == StepOf(txs[k]);
    if k > 0 { assert StepsOf(txs)[k - 1] == StepOf(txs[k - 1]); }
  }

  lemma CallsSteps(sb: Super, s0: Snap, off0: nat, txs: seq<Tx>, i: nat, src: seq<int>, room: nat)
    requires Calls(s0, off0, txs, [], |src|, Writes(sb, i, src, room)) && |s0.slots| == |s0.inodes|
    ensures StepsOk(FilesOf(s0), off0, StepsOf(txs), i, src, room)
  {
    forall k | 0 <= k < |txs| ensures StepAt(FilesOf(s0), off0, StepsOf(txs), i, src, room, k) {
      assert TxAt(s0, off0, txs, [], |src|, Writes(sb, i, src, room), k);
      WritesSeen(sb, i, src, room, txs[k]);
      if k > 0 {
        assert TxAt(s0, off0, txs, [], |src|, Writes(sb, i, src, room), k - 1) && Full(|src|, txs[k - 1]);
        WritesSeen(sb, i, src, room, txs[k - 1]);
      }
      assert k < |txs| - 1 ==> Full(|src|, txs[k]);
      StepAtOf(s0, off0, txs, i, src, room, k);
    }
  }

  lemma AloneSteps(base: seq<seq<int>>, off0: nat, steps: seq<Step>, i: nat, src: seq<int>, room: nat, st: Step)
    requires StepsOk(base, off0, steps, i, src, room) && steps != [] && st == steps[|steps| - 1] && i < |base|
    requires Whole(|src|, st) ==> ChunkEnd(|src|, st.at) == |src|
    ensures st.at < |src| && st.off == off0 + st.at
    ensures Whole(|src|, st) <==> off0 <= |base[i]| && off0 + |src| <= MAXFILE * BSIZE && |src| <= room
    ensures Whole(|src|, st) ==> st.after == base[i := Splice(base[i], off0, src)]
  {
    Begins(base, i, off0, src);
    Finds(base, off0, steps, i, src, room, |steps| - 1);
    assert StepAt(base, off0, steps, i, src, room, |steps| - 1);
    LastStep(base, i, off0, src, room, st);
    assert src[..|src|] == src;
  }

  /** With nobody in between, filewrite writes all of src if and only if the offset is in the file, the end within the
      largest file and the source readable; then the file is the old one with src over it, the others are as they were,
      and the offset has moved by as much. */
  lemma Alone(sb: Super, s0: Snap, txs: seq<Tx>, i: nat, off0: nat, src: seq<int>, room: nat, ret: int, off: nat)
    requires Calls(s0, off0, txs, [], |src|, Writes(sb, i, src, room)) && Returns(txs, off0, |src|, ret, off)
    requires i < |s0.slots| == |s0.inodes|
    ensures ret == |src| <==>
              src == [] || (off0 <= |FilesOf(s0)[i]| && off0 + |src| <= MAXFILE * BSIZE && |src| <= room)
    ensures ret == |src| ==> off == off0 + |src|
    ensures ret == |src| && src != [] ==>
              txs != [] && StepOf(txs[|txs| - 1]).after == FilesOf(s0)[i := Splice(FilesOf(s0)[i], off0, src)]
  {
    if txs != [] {
      CallsSteps(sb, s0, off0, txs, i, src, room);
      assert StepsOf(txs)[|txs| - 1] == StepOf(txs[|txs| - 1]);
      AloneSteps(FilesOf(s0), off0, StepsOf(txs), i, src, room, StepOf(txs[|txs| - 1]));
    }
  }

  // ---- itrunc

  /** itrunc as a transaction of its own stays within its share if and only if the blocks of the file are in fewer than
      MAXOPBLOCKS bitmap blocks. */
  method Truncate(fs: Fs, i: nat)
    requires SnapOk(fs.sb, fs.S()) && i < |fs.inodes|
    modifies fs`bitmap, fs`blocks, fs`inodes, fs`logged, fs`slots
    ensures fs.Valid() && fs.Synced() && fs.inodes == old(fs.inodes)[i := old(fs.inodes)[i].Emptied()]
    ensures |old(fs.slots)[i]| == NSLOTS && TruncLogs(fs.sb, old(fs.slots)[i], fs.logged)
  {
    fs.logged := [];  // begin_op
    SyncedStill(fs.sb, fs.blocks, fs.inodes, i);
    var ok := fs.Itrunc(i);
    TruncBudget(fs.sb, old(fs.slots)[i], fs.logged);
  }

  ghost predicate TruncLogs(sb: Super, row: seq<nat>, logged: seq<nat>)
    requires |row| == NSLOTS
  {
    InBudget(logged) <==> |BitBlocks(sb, row, 0, NSLOTS)| < MAXOPBLOCKS
  }

  lemma TruncBudget(sb: Super, row: seq<nat>, logged: seq<nat>)
    requires |row| == NSLOTS && |logged| > 0 && LogHas(sb, row, 0, NSLOTS, [], logged[..|logged| - 1])
    ensures TruncLogs(sb, row, logged)
  {
    assert Elements([]) + BitBlocks(sb, row, 0, NSLOTS) == BitBlocks(sb, row, 0, NSLOTS);
    LastCounts(logged);
  }

  /** Nine bitmap blocks are never too many. */
  lemma SmallDisk(sb: Super, bitmap: seq<bool>, slots: seq<seq<nat>>, i: nat)
    requires Owned(sb, bitmap, slots) && i < |slots| && sb.size <= (MAXOPBLOCKS - 1) * BPB
    ensures |BitBlocks(sb, slots[i], 0, NSLOTS)| < MAXOPBLOCKS
  {
    var m := sb.bmapstart;
    var all := {m, m + 1, m + 2, m + 3, m + 4, m + 5, m + 6, m + 7, m + 8};
    forall x | x in BitBlocks(sb, slots[i], 0, NSLOTS) ensures x in all {
      var k :| 0 <= k < NSLOTS && slots[i][k] != 0 && x == m + slots[i][k] / BPB;
      assert slots[i][k] in slots[i];
    }
    Subset(BitBlocks(sb, slots[i], 0, NSLOTS), all);
  }

  // A file of ten blocks on a disk of eleven bitmap blocks, each block of the file in another one.

  function WideAddr(k: nat): nat {
    if k < 10 then 14 + 8192 * k else 0
  }

  ghost function WideRow(): (row: seq<nat>)
    ensures |row| == NSLOTS && forall k :: 0 <= k < NSLOTS ==> row[k] == WideAddr(k)
  {
    seq(NSLOTS, k requires 0 <= k < NSLOTS => WideAddr(k))
  }

  ghost function WideInode(): (d: Inode)
    ensures d.Valid() && d.size == 10 * BSIZE && forall k :: 0 <= k <= NDIRECT ==> d.addrs[k] == WideAddr(k)
  {
    Inode(2, 0, 0, 1, 10 * BSIZE, seq(NDIRECT + 1, k requires 0 <= k <= NDIRECT => WideAddr(k)))
  }

  ghost predicate WideUsed(b: nat) {
    b < 14 || ((b - 14) % 8192 == 0 && b < 14 + 8192 * 10)
  }

  ghost function WideBitmap(): (m: seq<bool>)
    ensures |m| == 11 * 8192 && forall b :: 0 <= b < |m| ==> m[b] == WideUsed(b)
  {
    seq(11 * 8192, b requires 0 <= b => WideUsed(b))
  }

  ghost function WideBlocks(ib: Block): (bl: seq<Block>)
    requires ib.Valid()
    ensures |bl| == 11 * 8192 && bl[1] == ib && forall b :: 0 <= b < |bl| ==> bl[b].Valid()
  {
    var zeros := seq(11 * 8192, b => ZeroBlock());
    assert forall b :: 0 <= b < |zeros| ==> zeros[b] == ZeroBlock();
    zeros[1 := ib]
  }

  lemma Stored(b: Block, slot: nat, d: Inode) returns (ib: Block)
    requires b.Valid() && slot < IPB && d.Valid()
    ensures ib.Valid() && LoadDinode(ib, slot) == d
  {
    ib := StoreDinode(b, slot, d);
    DinodeRoundTrip(b, slot, d);
  }

  lemma WideOwned(sb: Super)
    requires sb == Super(11 * 8192, 1, 2, 14)
    ensures Owned(sb, WideBitmap(), [WideRow()])
  {
    var rows := [WideRow()];
    forall b | sb.datastart <= b < sb.size && WideBitmap()[b] ensures Names(rows, b) {
      var k := (b - 14) / 8192;
      assert WideRow()[k] == b;
      assert b in rows[0];
    }
  }

  /** Truncating that file is too much for one transaction. */
  lemma WideFile() returns (sb: Super, s: Snap)
    ensures SnapOk(sb, s) && |s.inodes| == 1 && |s.slots[0]| == NSLOTS
            && |BitBlocks(sb, s.slots[0], 0, NSLOTS)| >= MAXOPBLOCKS
  {
    sb := Super(11 * 8192, 1, 2, 14);
    var ib := Stored(ZeroBlock(), 0, WideInode());
    s := Snap(WideBitmap(), WideBlocks(ib), [WideInode()], [WideRow()], []);
    WideOwned(sb);
    WideReads(sb, s, ib);
    WideBits(sb);
  }

  lemma WideReads(sb: Super, s: Snap, ib: Block)
    requires sb == Super(11 * 8192, 1, 2, 14) && ib.Valid() && LoadDinode(ib, 0) == WideInode()
             && Owned(sb, WideBitmap(), [WideRow()])
    requires s == Snap(WideBitmap(), WideBlocks(ib), [WideInode()], [WideRow()], [])
    ensures SnapOk(sb, s)
  {
    assert WideRow() == Slots(WideInode(), Ind(WideBlocks(ib), WideInode()));
    assert RowIs(s.blocks, s.inodes[0], s.slots[0]);
    forall bn | 0 <= bn < MAXFILE && bn * BSIZE < 10 * BSIZE ensures Mapped(WideRow(), bn) { assert bn < 10; }
  }

  lemma WideBits(sb: Super)
    requires sb == Super(11 * 8192, 1, 2, 14)
    ensures |BitBlocks(sb, WideRow(), 0, NSLOTS)| >= MAXOPBLOCKS
  {
    var some := {2, 3, 4, 5, 6, 7, 8, 9, 10, 11};
    forall x | x in some ensures x in BitBlocks(sb, WideRow(), 0, NSLOTS) {
      assert WideRow()[x - 2] == 14 + 8192 * (x - 2);
      assert sb.bmapstart + WideRow()[x - 2] / BPB == x;
    }
    Subset(some, BitBlocks(sb, WideRow(), 0, NSLOTS));
  }

  // A file of two bytes, and a write of two of which the second cannot be read.

  function TwoRow(): (row: seq<nat>)
    ensures |row| == NSLOTS && row[0] == 3 && forall k :: 0 < k < NSLOTS ==> row[k] == 0
  {
    Zeros()[0 := 3]
  }

  function TwoInode(): (d: Inode)
    ensures d.Valid() && d.size == 2 && d.addrs[0] == 3 && forall k :: 0 < k <= NDIRECT ==> d.addrs[k] == 0
  {
    Inode(2, 0, 0, 1, 2, seq(NDIRECT + 1, k => if k == 0 then 3 else 0))
  }

  function TwoBlocks(ib: Block): (bl: seq<Block>)
    requires ib.Valid()
    ensures |bl| == 4 && bl[1] == ib && (forall b :: 0 <= b < |bl| ==> bl[b].Valid()) && bl[3].Valid()
    ensures bl[3].bytes[0] == bl[3].bytes[1] == 1
  {
    [ZeroBlock(), ib, ZeroBlock(), Patched(ZeroBlock(), 0, [1, 1])]
  }

  function TwoBytes(ib: Block): Snap
    requires ib.Valid()
  {
    Snap([true, true, true, true], TwoBlocks(ib), [TwoInode()], [TwoRow()], [])
  }

  lemma TwoOwned(sb: Super)
    requires sb == Super(4, 1, 2, 3)
    ensures Owned(sb, [true, true, true, true], [TwoRow()])
  {
    var rows := [TwoRow()];
    assert TwoRow()[0] == 3 && 3 in rows[0];
  }

  lemma TwoBytesOk(sb: Super, ib: Block)
    requires sb == Super(4, 1, 2, 3) && ib.Valid() && LoadDinode(ib, 0) == TwoInode()
    ensures SnapOk(sb, TwoBytes(ib))
  {
    var s := TwoBytes(ib);
    TwoOwned(sb);
    assert TwoRow() == Slots(TwoInode(), Ind(s.blocks, TwoInode()));
    assert RowIs(s.blocks, s.inodes[0], s.slots[0]);
    forall bn | 0 <= bn < MAXFILE && bn * BSIZE < 2 ensures Mapped(TwoRow(), bn) { assert bn == 0; }
  }

  lemma TwoFiles(ib: Block)
    requires ib.Valid()
    ensures FilesOf(TwoBytes(ib)) == [[1, 1]]
  {
    var s := TwoBytes(ib);
    forall pos | 0 <= pos < 2 ensures ByteAt(TwoRow(), s.blocks, pos) == 1 { assert pos / BSIZE == 0; }
    assert Contents(TwoRow(), s.blocks, 2) == [1, 1];
  }

  lemma TwoInodeOn(ib: Block)
    requires ib == StoreDinode(ZeroBlock(), 0, TwoInode())
    ensures ib.Valid() && LoadDinode(ib, 0) == TwoInode()
  {
    DinodeRoundTrip(ZeroBlock(), 0, TwoInode());
  }

  /** writei says it has written nothing, and the first byte is in the file. */
  method TornByte() returns (fs: Fs, ghost before: Snap, r: Option<int>)
    ensures SnapOk(fs.sb, before) && FilesOf(before) == [[1, 1]]
    ensures r == Some(0) && fs.Valid() && FilesOf(fs.S()) == [[2, 1]]
  {
    var ib := StoreDinode(ZeroBlock(), 0, TwoInode());
    TwoInodeOn(ib);
    fs := new Fs(Super(4, 1, 2, 3), TwoBytes(ib));
    before := fs.S();
    TwoBytesOk(fs.sb, ib);
    TwoFiles(ib);
    r := WriteTwo(fs);
  }

  method WriteTwo(fs: Fs) returns (r: Option<int>)
    requires SnapOk(fs.sb, fs.S()) && fs.slots == [TwoRow()] && FilesOf(fs.S()) == [[1, 1]]
    modifies fs`bitmap, fs`blocks, fs`inodes, fs`logged, fs`slots
    ensures r == Some(0) && fs.Valid() && FilesOf(fs.S()) == [[2, 1]]
  {
    NoneNeeded(fs.bitmap);
    ghost var data, maps;
    r, data, maps := fs.Writei(0, 0, [2, 2], 1);
    TornIs(fs.sb, old(fs.S()), fs.S(), r.value, data, maps);
  }

  lemma NoneNeeded(bitmap: seq<bool>)
    ensures !Broke(bitmap, TwoRow(), Reach(0, 2, 1))
  {
    assert Empty(TwoRow()) * Reach(0, 2, 1) == {};
  }

  lemma TornIs(sb: Super, s: Snap, s': Snap, r: int, data: seq<nat>, maps: seq<nat>)
    requires WriteDone(sb, s, s', 0, 0, [2, 2], 1, r, data, maps) && FilesOf(s) == [[1, 1]]
    ensures r == 0 && FilesOf(s') == [[2, 1]]
  {
    TornCut(r);
    assert FilesOf(s)[0] == [1, 1];
  }

  lemma TornCut(r: int)
    requires Result([1, 1], 0, [2, 2], 1, r)
    ensures r == 0 && After([1, 1], 0, [2, 2], 1, r) == [2, 1]
  {
    CutIs(0, 2, 1, r);
  }
}
