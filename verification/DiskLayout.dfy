/** Disk blocks, the disk layout and the format of the redo log
    (kernel/fs.h, kernel/param.h, kernel/log.c). */
module DiskLayout {
  import opened Params

  const LOGSIZE: nat := 30
  const NBUF: nat := 30
  const ROOTDEV: nat := 1

  /** A block is BSIZE = 1024 bytes, seen as 256 words. */
  const WORDS: nat := 256

  lemma LogSizes()
    ensures LOGSIZE == 3 * MAXOPBLOCKS && NBUF == 3 * MAXOPBLOCKS && WORDS * 4 == BSIZE
  {
  }

  datatype Words = Words(w: seq<int>)
  type Block = b: Words | |b.w| == WORDS witness Words(seq(WORDS, i => 0))
  type Disk = seq<Block>

  /** Where the log lies: header block at `start`, then `size - 1` log blocks. */
  datatype Layout = Layout(start: nat, size: nat, nblocks: nat) {
    ghost predicate Valid() {
      size > LOGSIZE && start + size <= nblocks
    }

    /** A block outside the log area. */
    predicate Home(b: int) {
      0 <= b < nblocks && !(start <= b < start + size)
    }
  }

  ghost predicate NoDup<T>(s: seq<T>) {
    forall i, j :: 0 <= i < j < |s| ==> s[i] != s[j]
  }

  /** write_head: the count, then the block numbers, over the old contents. */
  function EncodeHead(was: Block, bs: seq<int>): Block
    requires |bs| <= LOGSIZE
  {
    Words([|bs|] + bs + was.w[|bs| + 1..])
  }

  /** The header's count and its entry j. */
  function HeadSize(h: Block): int {
    h.w[0]
  }

  function HeadEntry(h: Block, j: nat): int
    requires j < LOGSIZE
  {
    h.w[j + 1]
  }

  /** read_head. */
  function DecodeHead(h: Block): (bs: seq<int>)
    requires 0 <= HeadSize(h) <= LOGSIZE
    ensures |bs| == HeadSize(h) && forall j :: 0 <= j < |bs| ==> bs[j] == HeadEntry(h, j)
  {
    h.w[1..1 + HeadSize(h)]
  }

  /** A header a well-formed image can hold: home blocks, each named once. */
  ghost predicate HeadOk(l: Layout, h: Block) {
    && 0 <= HeadSize(h) <= LOGSIZE
    && (forall j :: 0 <= j < HeadSize(h) ==> l.Home(HeadEntry(h, j)))
    && (forall i, j :: 0 <= i < j < HeadSize(h) ==> HeadEntry(h, i) != HeadEntry(h, j))
  }

  ghost predicate HeadIs(h: Block, bs: seq<int>) {
    HeadSize(h) == |bs| <= LOGSIZE && forall j :: 0 <= j < |bs| ==> HeadEntry(h, j) == bs[j]
  }

  ghost predicate HeadNames(h: Block, b: int) {
    exists j :: 0 <= j < HeadSize(h) && j < LOGSIZE && HeadEntry(h, j) == b
  }

  /** Reading back a header gives what was written, and the rest of the block is untouched. */
  lemma HeadRoundTrip(was: Block, bs: seq<int>)
    requires |bs| <= LOGSIZE
    ensures HeadIs(EncodeHead(was, bs), bs)
    ensures DecodeHead(EncodeHead(was, bs)) == bs
    ensures EncodeHead(was, bs).w[0] == |bs| && EncodeHead(was, bs).w[1..|bs| + 1] == bs
    ensures EncodeHead(was, bs).w[|bs| + 1..] == was.w[|bs| + 1..]
  {
    assert ([|bs|] + bs)[1..1 + |bs|] == bs;
  }

  /** `committed` is what recovery would rebuild from `d`: a block named by the header
      comes from its log block, every other home block from its home. */
  ghost predicate Recovers(l: Layout, d: Disk, committed: Disk)
    requires l.Valid() && |d| == |committed| == l.nblocks
  {
    && HeadOk(l, d[l.start])
    && (forall j :: 0 <= j < HeadSize(d[l.start]) ==> committed[HeadEntry(d[l.start], j)] == d[l.start + 1 + j])
    && (forall b :: l.Home(b) && !HeadNames(d[l.start], b) ==> committed[b] == d[b])
  }

  /** Copying a logged block home changes nothing for recovery, however often it is done. */
  lemma InstallRecovers(l: Layout, d: Disk, committed: Disk, t: nat)
    requires l.Valid() && |d| == |committed| == l.nblocks && Recovers(l, d, committed)
    requires t < HeadSize(d[l.start])
    ensures var home := HeadEntry(d[l.start], t);
      && l.Home(home) && l.start + 1 + t < |d|
      && d[home := d[l.start + 1 + t]][l.start] == d[l.start]
      && Recovers(l, d[home := d[l.start + 1 + t]], committed)
  {
    var home := HeadEntry(d[l.start], t);
    var d' := d[home := d[l.start + 1 + t]];
    assert d'[l.start] == d[l.start];
    assert HeadNames(d[l.start], home);
    assert forall b :: l.start <= b < l.start + l.size ==> d'[b] == d[b];
  }
}
