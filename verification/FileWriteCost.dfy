/** When filewrite panics for want of blocks, with nobody in between. */
module FileWriteCost {
  import opened Params
  import opened BlockCost
  import opened FsLayout
  import opened FileSystem
  import opened FileWrite

  /** How many of n bytes are in chunks that end within the largest file. */
  function Fits(off0: nat, n: nat): nat {
    if off0 + n <= MAXFILE * BSIZE then n
    else if off0 > MAXFILE * BSIZE then 0
    else (MAXFILE * BSIZE - off0) / MAXCHUNK * MAXCHUNK
  }

  lemma ReachTwo(off0: nat, at: nat, p: nat, room: nat)
    requires at <= room && p > 0
    ensures Reach(off0, at, room) + Reach(off0 + at, p, room - at) == Reach(off0, at + p, room)
  {
    if at > 0 {
      var last := LastByte(off0, at + p, room);
      NeededTwo(off0 / BSIZE, (off0 + at) / BSIZE, (off0 + at - 1) / BSIZE + 1, last / BSIZE + 1);
    }
  }

  function ChunkLen(n: nat, at: nat): nat
    requires at <= n
  {
    ChunkEnd(n, at) - at
  }

  lemma ReachChunk(off0: nat, at: nat, off: nat, n: nat, room: nat)
    requires at <= room && at < n && off == off0 + at
    ensures Reach(off0, at, room) + Reach(off, ChunkLen(n, at), Left(room, at)) == Reach(off0, ChunkEnd(n, at), room)
  {
    var p, left := ChunkLen(n, at), Left(room, at);
    assert left == room - at && at + p == ChunkEnd(n, at);
    ReachTwo(off0, at, p, room);
  }

  lemma ReachMore(off0: nat, m: nat, n: nat, room: nat)
    requires m <= n
    ensures Reach(off0, m, room) <= Reach(off0, n, room)
    ensures 0 < m && room < m ==> Reach(off0, m, room) == Reach(off0, n, room)
  {
    if m > 0 {
      NeededMono(off0 / BSIZE, LastByte(off0, m, room) / BSIZE + 1, LastByte(off0, n, room) / BSIZE + 1);
    }
  }

  // ---- one transaction

  /** What writei of p bytes returns, and how large it leaves a file. */
  predicate Sizes(size: nat, off: nat, p: nat, left: nat, r: int, size': nat) {
    if off > size || off + p > MAXFILE * BSIZE then r == -1
    else (if p <= left then r == p else 0 <= r < p) && size' == if off + r > size then off + r else size
  }

  /** The slots a transaction asks for. */
  ghost function Asks(tx: Tx, n: nat, room: nat): set<nat>
    requires tx.at <= n
  {
    Reach(tx.off, ChunkLen(n, tx.at), Left(room, tx.at))
  }

  /** What a transaction pays. */
  ghost predicate TxCost(tx: Tx, i: nat, n: nat, room: nat) {
    && tx.at < n && i < |tx.before.inodes| == |tx.after.inodes|
    && Sizes(tx.before.inodes[i].size, tx.off, ChunkLen(n, tx.at), Left(room, tx.at), tx.r, tx.after.inodes[i].size)
    && (tx.r >= 0 ==> PaidFor(tx.before, tx.after, i, Asks(tx, n, room)))
  }

  lemma SeenSizes(f: seq<seq<int>>, r: int, f': seq<seq<int>>, i: nat, off: nat, piece: seq<int>, left: nat)
    requires SeenFiles(f, r, f', i, off, piece, left)
    ensures |f'| == |f| && Sizes(|f[i]|, off, |piece|, left, r, |f'[i]|)
  {
  }

  lemma OkCosts(sb: Super, s: Snap, r: int, s': Snap, i: nat, off: nat, piece: seq<int>, left: nat)
    requires TxOk(sb, s, r, s', i, off, piece, left)
    ensures i < |s.inodes| == |s'.inodes| && Sizes(s.inodes[i].size, off, |piece|, left, r, s'.inodes[i].size)
    ensures r >= 0 ==> PaidFor(s, s', i, Reach(off, |piece|, left))
  {
    SeenSizes(FilesOf(s), r, FilesOf(s'), i, off, piece, left);
  }

  lemma PieceLen(src: seq<int>, at: nat)
    requires at <= |src|
    ensures |Piece(src, at)| == ChunkLen(|src|, at)
  {
  }

  lemma Costs(sb: Super, i: nat, src: seq<int>, room: nat, tx: Tx)
    requires tx.at < |src| && Writes(sb, i, src, room)(tx.at, tx.off, tx.before, tx.r, tx.after)
    ensures TxCost(tx, i, |src|, room)
  {
    PieceLen(src, tx.at);
    OkCosts(sb, tx.before, tx.r, tx.after, i, tx.off, Piece(src, tx.at), Left(room, tx.at));
  }

  // ---- the transactions of a call

  /** The chunks before byte `at` are written and paid for. */
  ghost predicate PaidSoFar(s0: Snap, s: Snap, i: nat, off0: nat, at: nat, n: nat, room: nat) {
    && i < |s0.inodes| == |s.inodes| && PaidFor(s0, s, i, Reach(off0, at, room))
    && Along(s0.inodes[i].size, s.inodes[i].size, off0, at, n, room)
  }

  /** The file reaches up to there. */
  predicate Along(size0: nat, size: nat, off0: nat, at: nat, n: nat, room: nat) {
    && at <= room && (at == n || at % MAXCHUNK == 0)
    && if at == 0 then size == size0 else off0 <= size0 && off0 + at <= size && off0 + at <= MAXFILE * BSIZE
  }

  lemma ChunkAligned(n: nat, at: nat)
    requires at % MAXCHUNK == 0 && at < n
    ensures ChunkEnd(n, at) == n || ChunkEnd(n, at) % MAXCHUNK == 0
  {
  }

  lemma AlongNext(size0: nat, size: nat, size': nat, off0: nat, at: nat, n: nat, room: nat, r: int)
    requires Along(size0, size, off0, at, n, room) && at < n
    requires Sizes(size, off0 + at, ChunkLen(n, at), Left(room, at), r, size') && at + r == ChunkEnd(n, at)
    ensures Along(size0, size', off0, ChunkEnd(n, at), n, room)
  {
    ChunkAligned(n, at);
    var end := ChunkEnd(n, at);
    assert at < end <= room && off0 + end <= MAXFILE * BSIZE && off0 + end <= size';
  }

  lemma PaysNext(s0: Snap, i: nat, off0: nat, n: nat, room: nat, tx: Tx)
    requires TxCost(tx, i, n, room) && Full(n, tx) && PaidSoFar(s0, tx.before, i, off0, tx.at, n, room)
             && tx.off == off0 + tx.at
    ensures PaidSoFar(s0, Fresh(tx.after), i, off0, ChunkEnd(n, tx.at), n, room)
  {
    AlongNext(s0.inodes[i].size, tx.before.inodes[i].size, tx.after.inodes[i].size, off0, tx.at, n, room, tx.r);
    Pays(s0, i, off0, n, room, tx);
  }

  /** Also when the chunk could not be read to its end. */
  lemma Pays(s0: Snap, i: nat, off0: nat, n: nat, room: nat, tx: Tx)
    requires TxCost(tx, i, n, room) && tx.r >= 0 && PaidSoFar(s0, tx.before, i, off0, tx.at, n, room)
             && tx.off == off0 + tx.at
    ensures PaidFor(s0, tx.after, i, Reach(off0, ChunkEnd(n, tx.at), room))
  {
    ReachChunk(off0, tx.at, tx.off, n, room);
    PaidTrans(s0.bitmap, s0.slots[i], tx.before.bitmap, tx.before.slots[i], tx.after.bitmap, tx.after.slots[i],
              Reach(off0, tx.at, room), Asks(tx, n, room), Reach(off0, ChunkEnd(n, tx.at), room));
  }

  lemma {:induction false} PaidUpTo(sb: Super, s0: Snap, off0: nat, txs: seq<Tx>, i: nat, src: seq<int>, room: nat,
                                    k: nat)
    requires Calls(s0, off0, txs, [], |src|, Writes(sb, i, src, room)) && k <= |txs|
             && (k > 0 ==> Full(|src|, txs[k - 1]))
    requires i < |s0.slots| == |s0.inodes|
    ensures PaidSoFar(s0, Found(s0, txs, [], k), i, off0, Begin(|src|, txs, k), |src|, room)
    ensures FoundOff(off0, txs, [], k) == off0 + Begin(|src|, txs, k)
  {
    if k == 0 {
      PaidNothing(s0.bitmap, s0.slots[i], {});
    } else {
      assert k > 1 ==> Full(|src|, txs[k - 2]);
      PaidUpTo(sb, s0, off0, txs, i, src, room, k - 1);
      assert TxAt(s0, off0, txs, [], |src|, Writes(sb, i, src, room), k - 1);
      Costs(sb, i, src, room, txs[k - 1]);
      PaysNext(s0, i, off0, |src|, room, txs[k - 1]);
    }
  }

  // ---- the whole call

  /** A chunk within the largest file is among those that fit. */
  lemma ChunkFits(off0: nat, at: nat, n: nat)
    requires at < n && at % MAXCHUNK == 0 && off0 + ChunkEnd(n, at) <= MAXFILE * BSIZE
    ensures ChunkEnd(n, at) <= Fits(off0, n)
  {
  }

  lemma LastFits(off0: nat, at: nat, n: nat)
    requires at < n && at % MAXCHUNK == 0 && off0 + at <= MAXFILE * BSIZE < off0 + ChunkEnd(n, at)
    ensures Fits(off0, n) == at
  {
  }

  /** The call pays for all that fits unless it panics. */
  lemma Finished(s0: Snap, i: nat, off0: nat, n: nat, room: nat, tx: Tx)
    requires TxCost(tx, i, n, room) && PaidSoFar(s0, tx.before, i, off0, tx.at, n, room) && tx.off == off0 + tx.at
    requires Full(n, tx) ==> ChunkEnd(n, tx.at) == n
    requires off0 <= s0.inodes[i].size <= MAXFILE * BSIZE
    ensures !BrokeAt(s0, i, Reach(off0, Fits(off0, n), room))
  {
    if tx.r >= 0 {
      Pays(s0, i, off0, n, room, tx);
      ChunkFits(off0, tx.at, n);
      ReachMore(off0, ChunkEnd(n, tx.at), Fits(off0, n), room);
      PaidNotBroke(s0.bitmap, s0.slots[i], tx.after.bitmap, tx.after.slots[i], Reach(off0, Fits(off0, n), room));
    } else {
      LastFits(off0, tx.at, n);
      PaidNotBroke(s0.bitmap, s0.slots[i], tx.before.bitmap, tx.before.slots[i], Reach(off0, Fits(off0, n), room));
    }
  }

  lemma Panicked(s0: Snap, s: Snap, i: nat, off0: nat, at: nat, off: nat, n: nat, p: nat, room: nat)
    requires PaidSoFar(s0, s, i, off0, at, n, room) && off == off0 + at && at < n && p == ChunkLen(n, at)
    requires Panics(s, i, off, p, Left(room, at))
    ensures off0 <= s0.inodes[i].size && BrokeAt(s0, i, Reach(off0, Fits(off0, n), room))
  {
    ReachChunk(off0, at, off, n, room);
    ChunkFits(off0, at, n);
    ReachMore(off0, ChunkEnd(n, at), Fits(off0, n), room);
    BrokeTrans(s0.bitmap, s0.slots[i], s.bitmap, s.slots[i], Reach(off0, at, room),
               Reach(off, p, Left(room, at)), Reach(off0, Fits(off0, n), room));
  }

  lemma PanickedRun(sb: Super, s0: Snap, off0: nat, txs: seq<Tx>, i: nat, src: seq<int>, room: nat)
    requires i < |s0.slots| == |s0.inodes| && Calls(s0, off0, txs, [], |src|, Writes(sb, i, src, room))
    requires PanicsNext(s0, off0, txs, [], i, src, room)
    ensures off0 <= s0.inodes[i].size && BrokeAt(s0, i, Reach(off0, Fits(off0, |src|), room))
  {
    var at, s, off := Begin(|src|, txs, |txs|), Found(s0, txs, [], |txs|), FoundOff(off0, txs, [], |txs|);
    PieceLen(src, at);
    PaidUpTo(sb, s0, off0, txs, i, src, room, |txs|);
    Panicked(s0, s, i, off0, at, off, |src|, |Piece(src, at)|, room);
  }

  lemma FinishedRun(sb: Super, s0: Snap, off0: nat, txs: seq<Tx>, i: nat, src: seq<int>, room: nat, ret: int, off: nat)
    requires i < |s0.slots| == |s0.inodes| && Calls(s0, off0, txs, [], |src|, Writes(sb, i, src, room))
    requires Returns(txs, off0, |src|, ret, off) && off0 <= s0.inodes[i].size <= MAXFILE * BSIZE
    ensures !BrokeAt(s0, i, Reach(off0, Fits(off0, |src|), room))
  {
    if txs != [] {
      var k := |txs| - 1;
      assert k > 0 ==> Full(|src|, txs[k - 1]);
      PaidUpTo(sb, s0, off0, txs, i, src, room, k);
      assert TxAt(s0, off0, txs, [], |src|, Writes(sb, i, src, room), k);
      Costs(sb, i, src, room, txs[k]);
      Finished(s0, i, off0, |src|, room, txs[k]);
    }
  }

  /** With nobody in between, filewrite panics if and only if the offset is in the file and there are fewer free blocks
      than slots without one among those it asks for: the slots of the bytes that fit, up to the first that cannot be
      read. */
  lemma PanicsExactly(sb: Super, s0: Snap, off0: nat, txs: seq<Tx>, i: nat, src: seq<int>, room: nat, ret: Option<int>,
                      off: nat)
    requires SnapOk(sb, s0) && i < |s0.inodes| && Calls(s0, off0, txs, [], |src|, Writes(sb, i, src, room))
    requires ret.None? ==> PanicsNext(s0, off0, txs, [], i, src, room)
    requires ret.Some? ==> Returns(txs, off0, |src|, ret.value, off)
    ensures ret.None? <==> off0 <= s0.inodes[i].size && BrokeAt(s0, i, Reach(off0, Fits(off0, |src|), room))
  {
    assert NoHoles(s0.slots[i], s0.inodes[i].size);
    if ret.None? {
      PanickedRun(sb, s0, off0, txs, i, src, room);
    } else if off0 <= s0.inodes[i].size {
      FinishedRun(sb, s0, off0, txs, i, src, room, ret.value, off);
    }
  }
}
