/** The block allocator, the block map and the contents of files (kernel/fs.c). */
module FileSystem {
  import opened Params
  import opened FsLayout
  import opened BlockCost

  // ---- what the disk and the inodes stand for

  /** The indirect block of an inode, all zero when it has none. */
  function Ind(blocks: seq<Block>, ino: Inode): (ind: Block)
    ensures ind.Valid()
  {
    if |ino.addrs| == NDIRECT + 1 && 0 < ino.addrs[NDIRECT] < |blocks| && blocks[ino.addrs[NDIRECT]].Valid()
    then blocks[ino.addrs[NDIRECT]] else ZeroBlock()
  }

  /** `row` lists the blocks that inode `ino` names. */
  ghost predicate RowIs(blocks: seq<Block>, ino: Inode, row: seq<nat>) {
    |ino.addrs| == NDIRECT + 1 && row == Slots(ino, Ind(blocks, ino))
  }

  ghost predicate Shape(sb: Super, bitmap: seq<bool>, blocks: seq<Block>, inodes: seq<Inode>) {
    && sb.Valid() && sb.size < 0x1_0000_0000
    && |bitmap| == |blocks| == sb.size
    && (forall b :: 0 <= b < |blocks| ==> blocks[b].Valid())
    && |inodes| <= (sb.bmapstart - sb.inodestart) * IPB
    && (forall i :: 0 <= i < |inodes| ==>
          |inodes[i].addrs| == NDIRECT + 1 && inodes[i].size <= MAXFILE * BSIZE && inodes[i].Shorts())
  }

  /** slots[i] lists the blocks of inode i, and block ownership is as it should be. */
  ghost predicate FsOk(sb: Super, bitmap: seq<bool>, blocks: seq<Block>, inodes: seq<Inode>, slots: seq<seq<nat>>) {
    && Shape(sb, bitmap, blocks, inodes)
    && Owned(sb, bitmap, slots)
    && |slots| == |inodes|
    && forall i {:trigger RowIs(blocks, inodes[i], slots[i])} :: 0 <= i < |inodes| ==>
        RowIs(blocks, inodes[i], slots[i])
  }

  // ---- what a transaction may change

  /** The state of the file system: `blocks` and `bitmap` as the buffers show them, and the calls of log_write so
      far. */
  datatype Snap = Snap(bitmap: seq<bool>, blocks: seq<Block>, inodes: seq<Inode>, slots: seq<seq<nat>>,
                       logged: seq<nat>)

  /** Nothing below the data area changed. */
  ghost predicate MetaKept(sb: Super, blocks: seq<Block>, blocks': seq<Block>) {
    |blocks| == |blocks'| && forall b :: 0 <= b < sb.datastart && b < |blocks| ==> blocks'[b] == blocks[b]
  }

  /** Every block that changed, and the bitmap block of every bit that changed, went through log_write; `but` are
      exempt. */
  ghost predicate Logged(sb: Super, s: Snap, s': Snap, but: set<nat>) {
    && |s.bitmap| == |s'.bitmap| && |s.blocks| == |s'.blocks| && s.logged <= s'.logged
    && (forall b :: 0 <= b < |s.blocks| && b !in but && s'.blocks[b] != s.blocks[b] ==> b in s'.logged)
    && (forall b :: 0 <= b < |s.bitmap| && s'.bitmap[b] != s.bitmap[b] ==> sb.bmapstart + b / BPB in s'.logged)
  }

  ghost predicate Trail(sb: Super, s: Snap, s': Snap, but: set<nat>) {
    Logged(sb, s, s', but) && MetaKept(sb, s.blocks, s'.blocks)
  }

  lemma LoggedTrans(sb: Super, s: Snap, s1: Snap, s2: Snap, but: set<nat>)
    requires Logged(sb, s, s1, but) && Logged(sb, s1, s2, but)
    ensures Logged(sb, s, s2, but)
  {
    forall b | 0 <= b < |s.blocks| && b !in but && s2.blocks[b] != s.blocks[b] ensures b in s2.logged {
      assert s1.blocks[b] != s.blocks[b] || s2.blocks[b] != s1.blocks[b];
    }
    forall b | 0 <= b < |s.bitmap| && s2.bitmap[b] != s.bitmap[b] ensures sb.bmapstart + b / BPB in s2.logged {
      assert s1.bitmap[b] != s.bitmap[b] || s2.bitmap[b] != s1.bitmap[b];
    }
  }

  lemma TrailTrans(sb: Super, s: Snap, s1: Snap, s2: Snap, but: set<nat>)
    requires Trail(sb, s, s1, but) && Trail(sb, s1, s2, but)
    ensures Trail(sb, s, s2, but)
  {
    LoggedTrans(sb, s, s1, s2, but);
  }

  /** A block taken from the bitmap, zeroed, and perhaps entered in block `ind`. */
  lemma TrailAlloc(sb: Super, s: Snap, s': Snap, b: nat, ind: nat, nb: Block)
    requires b < |s.blocks| == |s.bitmap| && sb.datastart <= b && s'.bitmap == s.bitmap[b := true]
    requires sb.datastart <= ind < |s.blocks| && s'.blocks == s.blocks[b := ZeroBlock()][ind := nb]
    requires s'.logged == s.logged + [sb.bmapstart + b / BPB, b] + if ind == b then [] else [ind]
    ensures Trail(sb, s, s', {})
  {
    var more := [sb.bmapstart + b / BPB, b] + if ind == b then [] else [ind];
    assert more[0] in s'.logged && more[1] in s'.logged && more[|more| - 1] in s'.logged;
  }

  /** The exempt block is logged after all. */
  lemma TrailLogged(sb: Super, s: Snap, s1: Snap, s2: Snap, addr: nat)
    requires Trail(sb, s, s1, {addr}) && s2 == s1.(logged := s1.logged + [addr])
    ensures Trail(sb, s, s2, {})
  {
    assert s2.logged[|s1.logged|] == addr;
    forall x | x in s1.logged ensures x in s2.logged {
      var k :| 0 <= k < |s1.logged| && s1.logged[k] == x;
      assert s2.logged[k] == x;
    }
  }

  /** Inode i got a block for each slot of `need` that was empty, and for no other; or there were too few. */
  ghost predicate PaidFor(s: Snap, s': Snap, i: nat, need: set<nat>) {
    i < |s.slots| == |s'.slots| && Paid(s.bitmap, s.slots[i], s'.bitmap, s'.slots[i], need)
  }

  ghost predicate BrokeAt(s: Snap, i: nat, need: set<nat>) {
    i < |s.slots| && Broke(s.bitmap, s.slots[i], need)
  }

  // ---- inodes on disk

  function IBlock(sb: Super, i: nat): nat {
    sb.inodestart + i / IPB
  }

  /** Inodes lie one after the other, 64 bytes each, from the first inode block on. */
  lemma InodePlace(sb: Super, i: nat)
    ensures IBlock(sb, i) * BSIZE + i % IPB * 64 == sb.inodestart * BSIZE + i * 64
  {
  }

  /** Inode i as it stands in its inode block. */
  function OnDisk(sb: Super, blocks: seq<Block>, i: nat): Inode
    requires IBlock(sb, i) < |blocks| && blocks[IBlock(sb, i)].Valid()
  {
    LoadDinode(blocks[IBlock(sb, i)], i % IPB)
  }

  /** Every inode in memory is the one on disk, but for those in `but`. */
  ghost predicate SyncedBut(sb: Super, blocks: seq<Block>, inodes: seq<Inode>, but: set<nat>) {
    forall i {:trigger inodes[i]} :: 0 <= i < |inodes| && i !in but ==>
      IBlock(sb, i) < |blocks| && blocks[IBlock(sb, i)].Valid() && OnDisk(sb, blocks, i) == inodes[i]
  }

  lemma InodeBlock(sb: Super, n: nat, i: nat)
    requires sb.Valid() && n <= (sb.bmapstart - sb.inodestart) * IPB && i < n
    ensures 0 < IBlock(sb, i) < sb.bmapstart < sb.datastart
  {
  }

  /** A change below the data area is a change to no block of any file. */
  lemma MetaWrite(sb: Super, bitmap: seq<bool>, blocks: seq<Block>, inodes: seq<Inode>, slots: seq<seq<nat>>, m: nat,
                  nb: Block)
    requires FsOk(sb, bitmap, blocks, inodes, slots) && 0 < m < sb.datastart && nb.Valid()
    ensures FsOk(sb, bitmap, blocks[m := nb], inodes, slots)
    ensures forall j, k :: 0 <= j < |slots| && 0 <= k < NSLOTS ==> slots[j][k] != m
  {
    forall j, k | 0 <= j < |slots| && 0 <= k < NSLOTS ensures slots[j][k] != m { assert slots[j][k] in slots[j]; }
    forall j | 0 <= j < |inodes| ensures RowIs(blocks[m := nb], inodes[j], slots[j]) {
      assert RowIs(blocks, inodes[j], slots[j]);
      assert slots[j][NDIRECT] == inodes[j].addrs[NDIRECT];
      assert Ind(blocks[m := nb], inodes[j]) == Ind(blocks, inodes[j]);
    }
  }

  lemma AddrsFit(sb: Super, bitmap: seq<bool>, blocks: seq<Block>, inodes: seq<Inode>, slots: seq<seq<nat>>, i: nat)
    requires FsOk(sb, bitmap, blocks, inodes, slots) && i < |inodes|
    ensures inodes[i].Valid()
  {
    assert RowIs(blocks, inodes[i], slots[i]);
    forall k | 0 <= k <= NDIRECT ensures inodes[i].addrs[k] < 0x1_0000_0000 {
      assert slots[i][k] == inodes[i].addrs[k] && slots[i][k] in slots[i];
    }
  }

  /** One inode written back. */
  lemma UpdateSynced(sb: Super, bitmap: seq<bool>, blocks: seq<Block>, inodes: seq<Inode>, i: nat, nb: Block)
    requires Shape(sb, bitmap, blocks, inodes) && i < |inodes| && inodes[i].Valid() && IBlock(sb, i) < |blocks|
    requires nb == StoreDinode(blocks[IBlock(sb, i)], i % IPB, inodes[i])
    ensures OnDisk(sb, blocks[IBlock(sb, i) := nb], i) == inodes[i]
    ensures forall j :: 0 <= j < |inodes| && j != i ==>
              IBlock(sb, j) < sb.datastart && OnDisk(sb, blocks[IBlock(sb, i) := nb], j) == OnDisk(sb, blocks, j)
  {
    DinodeRoundTrip(blocks[IBlock(sb, i)], i % IPB, inodes[i]);
    forall j | 0 <= j < |inodes| && j != i
      ensures IBlock(sb, j) < sb.datastart && OnDisk(sb, blocks[IBlock(sb, i) := nb], j) == OnDisk(sb, blocks, j)
    {
      InodeBlock(sb, |inodes|, j);
      assert i / IPB == j / IPB ==> i % IPB != j % IPB;
    }
  }

  /** What iupdate of inode i does, and whatever was done to inode i before it: inode i is on disk and its block in the
      log; the other inodes stay, in memory and on disk, and so does every other block. */
  ghost predicate Updated(sb: Super, s: Snap, s': Snap, i: nat) {
    && s'.bitmap == s.bitmap && s'.slots == s.slots && s'.logged == s.logged + [IBlock(sb, i)]
    && Shape(sb, s'.bitmap, s'.blocks, s'.inodes) && Shape(sb, s.bitmap, s.blocks, s.inodes)
    && i < |s.inodes| == |s'.inodes|
    && (forall b :: 0 <= b < |s.blocks| && b != IBlock(sb, i) ==> s'.blocks[b] == s.blocks[b])
    && 0 < IBlock(sb, i) < sb.datastart && OnDisk(sb, s'.blocks, i) == s'.inodes[i]
    && (forall j :: 0 <= j < |s.inodes| && j != i ==>
          && s'.inodes[j] == s.inodes[j] && IBlock(sb, j) < sb.datastart
          && OnDisk(sb, s'.blocks, j) == OnDisk(sb, s.blocks, j))
  }

  /** A transaction that ends with iupdate. */
  lemma Persisted(sb: Super, s0: Snap, s1: Snap, s2: Snap, i: nat, but: set<nat>)
    requires Trail(sb, s0, s1, but) && Updated(sb, s1, s2, i) && |s0.inodes| == |s1.inodes|
    requires forall j :: 0 <= j < |s0.inodes| && j != i ==> s1.inodes[j] == s0.inodes[j]
    ensures Logged(sb, s0, s2, but)
    ensures SyncedBut(sb, s0.blocks, s0.inodes, {i}) ==> SyncedBut(sb, s2.blocks, s2.inodes, {})
  {
    assert s2.logged[|s1.logged|] == IBlock(sb, i);
    LoggedTrans(sb, s0, s1, s2, but);
    if SyncedBut(sb, s0.blocks, s0.inodes, {i}) {
      forall j | 0 <= j < |s2.inodes|
        ensures IBlock(sb, j) < |s2.blocks| && s2.blocks[IBlock(sb, j)].Valid()
                && OnDisk(sb, s2.blocks, j) == s2.inodes[j]
      {
        if j != i { assert s2.inodes[j] == s1.inodes[j] == s0.inodes[j]; }
      }
    }
  }

  // ---- the blocks a transaction logs

  function Elements(s: seq<nat>): (e: set<nat>)
    ensures forall x :: x in e <==> x in s
  {
    set x | x in s
  }

  lemma ElementsMore(s: seq<nat>, x: nat)
    ensures Elements(s + [x]) == Elements(s) + {x}
  {
  }

  /** The bitmap blocks of the blocks in places lo to hi of a row. */
  ghost function BitBlocks(sb: Super, row: seq<nat>, lo: nat, hi: nat): set<nat>
    requires hi <= |row|
  {
    set k | lo <= k < hi && row[k] != 0 :: sb.bmapstart + row[k] / BPB
  }

  lemma BitBlocksNext(sb: Super, row: seq<nat>, lo: nat, hi: nat)
    requires lo <= hi < |row|
    ensures BitBlocks(sb, row, lo, hi + 1) ==
            BitBlocks(sb, row, lo, hi) + if row[hi] == 0 then {} else {sb.bmapstart + row[hi] / BPB}
  {
  }

  /** `lg` is lg0 and more, and adds the bitmap blocks of places lo to hi. */
  ghost predicate LogHas(sb: Super, row: seq<nat>, lo: nat, hi: nat, lg0: seq<nat>, lg: seq<nat>)
    requires hi <= |row|
  {
    lg0 <= lg && Elements(lg) == Elements(lg0) + BitBlocks(sb, row, lo, hi)
  }

  lemma LogHasNothing(sb: Super, row: seq<nat>, lo: nat, lg: seq<nat>)
    requires lo <= |row|
    ensures LogHas(sb, row, lo, lo, lg, lg)
  {
    assert BitBlocks(sb, row, lo, lo) == {};
  }

  lemma LogHasNext(sb: Super, row: seq<nat>, lo: nat, hi: nat, lg0: seq<nat>, lg: seq<nat>, lg': seq<nat>)
    requires lo <= hi < |row| && LogHas(sb, row, lo, hi, lg0, lg)
    requires lg' == if row[hi] == 0 then lg else lg + [sb.bmapstart + row[hi] / BPB]
    ensures LogHas(sb, row, lo, hi + 1, lg0, lg')
  {
    BitBlocksNext(sb, row, lo, hi);
    if row[hi] != 0 { ElementsMore(lg, sb.bmapstart + row[hi] / BPB); }
  }

  lemma LogHasFirst(sb: Super, row: seq<nat>, lo: nat, hi: nat, lg0: seq<nat>, lg: seq<nat>, lg': seq<nat>)
    requires lo < hi <= |row| && row[lo] != 0 && LogHas(sb, row, lo + 1, hi, lg0, lg)
    requires lg' == lg + [sb.bmapstart + row[lo] / BPB]
    ensures LogHas(sb, row, lo, hi, lg0, lg')
  {
    BitBlocksFirst(sb, row, lo, hi);
    ElementsMore(lg, sb.bmapstart + row[lo] / BPB);
  }

  /** Both halves of a row. */
  lemma LogHasBoth(sb: Super, row: seq<nat>, row': seq<nat>, mid: nat, lg0: seq<nat>, lg1: seq<nat>, lg: seq<nat>)
    requires mid <= |row| == |row'| && row'[mid..] == row[mid..]
    requires LogHas(sb, row, 0, mid, lg0, lg1) && LogHas(sb, row', mid, |row|, lg1, lg)
    ensures LogHas(sb, row, 0, |row|, lg0, lg)
  {
    BitBlocksSplit(sb, row, row', mid);
  }

  /** Every bit that itrunc clears is in a bitmap block it logs. */
  lemma TruncLogged(sb: Super, s: Snap, s': Snap, i: nat)
    requires |s.bitmap| == |s'.bitmap| == sb.size && s'.blocks == s.blocks && i < |s.slots|
    requires forall b :: 0 <= b < sb.size ==> (s'.bitmap[b] <==> s.bitmap[b] && (b == 0 || b !in s.slots[i]))
    requires LogHas(sb, s.slots[i], 0, |s.slots[i]|, s.logged, s'.logged)
    ensures Trail(sb, s, s', {})
  {
    forall b | 0 <= b < |s.bitmap| && s'.bitmap[b] != s.bitmap[b] ensures sb.bmapstart + b / BPB in s'.logged {
      assert b in s.slots[i] && b != 0;
      var k :| 0 <= k < |s.slots[i]| && s.slots[i][k] == b;
      assert sb.bmapstart + s.slots[i][k] / BPB in BitBlocks(sb, s.slots[i], 0, |s.slots[i]|);
      assert sb.bmapstart + b / BPB in Elements(s'.logged);
    }
  }

  lemma BitBlocksFirst(sb: Super, row: seq<nat>, lo: nat, hi: nat)
    requires lo < hi <= |row| && row[lo] != 0
    ensures BitBlocks(sb, row, lo, hi) == BitBlocks(sb, row, lo + 1, hi) + {sb.bmapstart + row[lo] / BPB}
  {
  }

  lemma BitBlocksSplit(sb: Super, row: seq<nat>, row': seq<nat>, mid: nat)
    requires mid <= |row| == |row'| && row'[mid..] == row[mid..]
    ensures BitBlocks(sb, row, 0, |row|) == BitBlocks(sb, row, 0, mid) + BitBlocks(sb, row', mid, |row|)
  {
    forall k | mid <= k < |row| ensures row'[k] == row[k] { assert row'[mid..][k - mid] == row[mid..][k - mid]; }
  }

  // ---- blocks and their owners

  /** A block nobody names is nobody's indirect block. */
  lemma FreeIsNotIndirect(sb: Super, bitmap: seq<bool>, blocks: seq<Block>, inodes: seq<Inode>, slots: seq<seq<nat>>,
                          b: nat)
    requires FsOk(sb, bitmap, blocks, inodes, slots) && b < sb.size && !bitmap[b]
    ensures b != 0 && forall i :: 0 <= i < |inodes| ==> inodes[i].addrs[NDIRECT] != b
  {
    forall i | 0 <= i < |inodes| ensures inodes[i].addrs[NDIRECT] != b {
      assert RowIs(blocks, inodes[i], slots[i]);
      assert slots[i][NDIRECT] == inodes[i].addrs[NDIRECT] && slots[i][NDIRECT] in slots[i];
    }
  }

  lemma OnlyOneIndirect(sb: Super, bitmap: seq<bool>, blocks: seq<Block>, inodes: seq<Inode>, slots: seq<seq<nat>>,
                        i: nat, h: nat)
    requires FsOk(sb, bitmap, blocks, inodes, slots) && i < |inodes| && h < |inodes| && i != h
    requires inodes[i].addrs[NDIRECT] != 0
    ensures inodes[h].addrs[NDIRECT] != inodes[i].addrs[NDIRECT]
  {
    assert RowIs(blocks, inodes[i], slots[i]) && RowIs(blocks, inodes[h], slots[h]);
    assert slots[i][NDIRECT] in slots[i] && slots[h][NDIRECT] in slots[h];
  }

  lemma ZeroWords()
    ensures forall j :: 0 <= j < NINDIRECT ==> Word(ZeroBlock(), j) == 0
  {
  }

  function SetAddr(ino: Inode, k: nat, b: nat): Inode
    requires k < |ino.addrs|
  {
    ino.(addrs := ino.addrs[k := b])
  }

  /** Storing a fresh zeroed block b in direct or indirect address k of inode i. */
  lemma StoreAddr(sb: Super, bitmap: seq<bool>, blocks: seq<Block>, inodes: seq<Inode>, slots: seq<seq<nat>>,
                  i: nat, k: nat, b: nat)
    requires FsOk(sb, bitmap, blocks, inodes, slots) && i < |inodes| && k <= NDIRECT && b < sb.size && !bitmap[b]
    requires inodes[i].addrs[k] == 0
    ensures FsOk(sb, bitmap[b := true], blocks[b := ZeroBlock()], inodes[i := SetAddr(inodes[i], k, b)],
                 SetSlot(slots, i, k, b))
    ensures slots[i][k] == 0
  {
    FreeIsNotIndirect(sb, bitmap, blocks, inodes, slots, b);
    var inodes' := inodes[i := SetAddr(inodes[i], k, b)];
    var slots' := SetSlot(slots, i, k, b);
    assert RowIs(blocks, inodes[i], slots[i]);
    AllocOwned(sb, bitmap, slots, i, k, b);
    forall j | 0 <= j < |inodes| ensures RowIs(blocks[b := ZeroBlock()], inodes'[j], slots'[j]) {
      assert RowIs(blocks, inodes[j], slots[j]);
      if j == i {
        ZeroWords();
        assert slots'[i] == Slots(inodes'[i], Ind(blocks[b := ZeroBlock()], inodes'[i]));
      } else {
        assert Ind(blocks[b := ZeroBlock()], inodes[j]) == Ind(blocks, inodes[j]);
      }
    }
  }

  /** Storing a fresh zeroed block b in entry j of the indirect block of inode i. */
  lemma StoreEntry(sb: Super, bitmap: seq<bool>, blocks: seq<Block>, inodes: seq<Inode>, slots: seq<seq<nat>>,
                   i: nat, j: nat, b: nat, blocks': seq<Block>)
    requires FsOk(sb, bitmap, blocks, inodes, slots) && i < |inodes| && j < NINDIRECT && b < sb.size && !bitmap[b]
    requires 0 < inodes[i].addrs[NDIRECT] < sb.size && Word(blocks[inodes[i].addrs[NDIRECT]], j) == 0
    requires blocks' ==
             blocks[b := ZeroBlock()][inodes[i].addrs[NDIRECT] := SetWord(blocks[inodes[i].addrs[NDIRECT]], j, b)]
    ensures FsOk(sb, bitmap[b := true], blocks', inodes, SetSlot(slots, i, NDIRECT + 1 + j, b))
    ensures slots[i][NDIRECT + 1 + j] == 0
  {
    FreeIsNotIndirect(sb, bitmap, blocks, inodes, slots, b);
    var ind := inodes[i].addrs[NDIRECT];
    var k := NDIRECT + 1 + j;
    var slots' := SetSlot(slots, i, k, b);
    WordSet(blocks[ind], j, b);
    assert RowIs(blocks, inodes[i], slots[i]);
    AllocOwned(sb, bitmap, slots, i, k, b);
    forall h | 0 <= h < |inodes| ensures RowIs(blocks', inodes[h], slots'[h]) {
      assert RowIs(blocks, inodes[h], slots[h]);
      if h == i {
        assert slots'[i] == Slots(inodes[i], Ind(blocks', inodes[i]));
      } else {
        OnlyOneIndirect(sb, bitmap, blocks, inodes, slots, i, h);
        assert Ind(blocks', inodes[h]) == Ind(blocks, inodes[h]);
      }
    }
  }

  /** What slot k of row i names is kept, and so are its contents if it holds file data. */
  ghost predicate Kept(s: seq<seq<nat>>, blocks: seq<Block>, s': seq<seq<nat>>, blocks': seq<Block>, i: nat, k: nat)
    requires |s| == |s'| && |blocks| == |blocks'| && i < |s| && |s[i]| == |s'[i]| && k < |s[i]|
  {
    s[i][k] != 0 ==>
      s'[i][k] == s[i][k] && (k != NDIRECT && s[i][k] < |blocks| ==> blocks'[s[i][k]] == blocks[s[i][k]])
  }

  /** Slots only gain blocks, and the blocks that hold file data keep their contents. */
  ghost predicate Grown(s: seq<seq<nat>>, blocks: seq<Block>, s': seq<seq<nat>>, blocks': seq<Block>) {
    && |s| == |s'| && |blocks| == |blocks'|
    && (forall i :: 0 <= i < |s| ==> |s[i]| == |s'[i]|)
    && forall i, k {:trigger Kept(s, blocks, s', blocks', i, k)} :: 0 <= i < |s| && 0 <= k < |s[i]| ==>
         Kept(s, blocks, s', blocks', i, k)
  }

  lemma GrownTrans(s0: seq<seq<nat>>, b0: seq<Block>, s1: seq<seq<nat>>, b1: seq<Block>, s2: seq<seq<nat>>,
                   b2: seq<Block>)
    requires Grown(s0, b0, s1, b1) && Grown(s1, b1, s2, b2)
    ensures Grown(s0, b0, s2, b2)
  {
    forall i, k | 0 <= i < |s0| && 0 <= k < |s0[i]| ensures Kept(s0, b0, s2, b2, i, k) {
      assert Kept(s0, b0, s1, b1, i, k) && Kept(s1, b1, s2, b2, i, k);
    }
  }

  lemma GrownSelf(s: seq<seq<nat>>, blocks: seq<Block>)
    ensures Grown(s, blocks, s, blocks)
  {
  }

  /** A block has one use: clearing a free block, or changing an indirect block, touches no file data. */
  lemma GrownByOne(sb: Super, bitmap: seq<bool>, blocks: seq<Block>, slots: seq<seq<nat>>,
                   i: nat, k: nat, b: nat, blocks': seq<Block>)
    requires Owned(sb, bitmap, slots) && i < |slots| && k < NSLOTS && b < sb.size && !bitmap[b] && slots[i][k] == 0
    requires |blocks'| == |blocks| && forall c :: 0 <= c < |blocks| && c != b && c != slots[i][NDIRECT] ==>
             blocks'[c] == blocks[c]
    requires slots[i][NDIRECT] == 0 ==> 0 < |blocks| ==> blocks'[0] == blocks[0]
    ensures Grown(slots, blocks, SetSlot(slots, i, k, b), blocks')
  {
    var s' := SetSlot(slots, i, k, b);
    forall j, h | 0 <= j < |slots| && 0 <= h < |slots[j]| ensures Kept(slots, blocks, s', blocks', j, h) {
      assert slots[j][h] in slots[j] && slots[i][NDIRECT] in slots[i];
    }
  }

  lemma EmptyEntry(sb: Super, s: Snap, i: nat, j: nat, b: nat)
    requires FsOk(sb, s.bitmap, s.blocks, s.inodes, s.slots) && i < |s.inodes| && j < NINDIRECT && b < sb.size
             && !s.bitmap[b]
    requires 0 < s.inodes[i].addrs[NDIRECT] < sb.size && Word(s.blocks[s.inodes[i].addrs[NDIRECT]], j) == 0
    ensures |s.slots[i]| == NSLOTS && s.slots[i][NDIRECT] == s.inodes[i].addrs[NDIRECT]
            && s.slots[i][NDIRECT + 1 + j] == 0
    ensures b != s.inodes[i].addrs[NDIRECT] && sb.datastart <= b && sb.datastart <= s.inodes[i].addrs[NDIRECT]
  {
    FreeIsNotIndirect(sb, s.bitmap, s.blocks, s.inodes, s.slots, b);
    assert RowIs(s.blocks, s.inodes[i], s.slots[i]);
    assert s.slots[i][NDIRECT] in s.slots[i];
  }

  // ---- bmap

  function Al(s: Snap, i: nat): Alloc
    requires i < |s.slots|
  {
    Alloc(s.bitmap, s.slots[i])
  }

  /** bmap has looked at slot k of inode i. If it names a block, that is the answer and nothing has changed; otherwise
      it got the free block `addr`, zeroed, and all changes are logged, or there was none. `maps` are the bitmap blocks
      logged. */
  ghost predicate SlotDone(sb: Super, s: Snap, s': Snap, i: nat, k: nat, addr: Option<nat>, maps: seq<nat>) {
    && FsOk(sb, s'.bitmap, s'.blocks, s'.inodes, s'.slots) && Others(s, s', i)
    && i < |s.slots| == |s'.slots| && k < NSLOTS == |s.slots[i]| == |s'.slots[i]|
    && Grown(s.slots, s.blocks, s'.slots, s'.blocks) && Trail(sb, s, s', {})
    && (addr.Some? ==>
          0 < addr.value == s'.slots[i][k] < sb.size && s'.slots == SetSlot(s.slots, i, k, addr.value)
              && Took(Al(s, i), Al(s', i), k))
    && (addr.None? ==> s' == s && Stuck(Al(s, i), k))
    && (s.slots[i][k] != 0 ==> addr.Some? && maps == [] && s' == s)
    && (addr.Some? && s.slots[i][k] == 0 ==>
          && s'.blocks[addr.value] == ZeroBlock() && |maps| == 1
          && s'.logged == s.logged + [maps[0], addr.value] + if k > NDIRECT then [s'.slots[i][NDIRECT]] else [])
  }

  lemma SlotThere(sb: Super, s: Snap, i: nat, k: nat)
    requires FsOk(sb, s.bitmap, s.blocks, s.inodes, s.slots) && i < |s.inodes| && k < NSLOTS && s.slots[i][k] != 0
    ensures SlotDone(sb, s, s, i, k, Some(s.slots[i][k]), [])
  {
    assert s.slots[i][k] in s.slots[i] && SetSlot(s.slots, i, k, s.slots[i][k])[i] == s.slots[i];
    GrownSelf(s.slots, s.blocks);
  }

  lemma SlotLacking(sb: Super, s: Snap, i: nat, k: nat)
    requires FsOk(sb, s.bitmap, s.blocks, s.inodes, s.slots) && i < |s.inodes| && k < NSLOTS && s.slots[i][k] == 0
    requires forall b :: 0 <= b < sb.size ==> s.bitmap[b]
    ensures SlotDone(sb, s, s, i, k, None, [])
  {
    GrownSelf(s.slots, s.blocks);
  }

  /** Everything about address k of inode i getting the free block b. */
  lemma NewAddr(sb: Super, s: Snap, s': Snap, i: nat, k: nat, b: nat, maps: seq<nat>)
    requires FsOk(sb, s.bitmap, s.blocks, s.inodes, s.slots) && i < |s.inodes| && k <= NDIRECT && b < sb.size
             && !s.bitmap[b]
    requires s.inodes[i].addrs[k] == 0 && |s.slots[i]| == NSLOTS && s'.slots == SetSlot(s.slots, i, k, b)
    requires s'.bitmap == s.bitmap[b := true] && s'.blocks == s.blocks[b := ZeroBlock()]
    requires s'.inodes == s.inodes[i := SetAddr(s.inodes[i], k, b)]
             && s'.logged == s.logged + [sb.bmapstart + b / BPB, b]
    requires maps == [sb.bmapstart + b / BPB]
    ensures SlotDone(sb, s, s', i, k, Some(b), maps)
  {
    StoreAddr(sb, s.bitmap, s.blocks, s.inodes, s.slots, i, k, b);
    GrownByOne(sb, s.bitmap, s.blocks, s.slots, i, k, b, s'.blocks);
    FreeIsNotIndirect(sb, s.bitmap, s.blocks, s.inodes, s.slots, b);
    assert s'.blocks == s.blocks[b := ZeroBlock()][b := ZeroBlock()];
    TrailAlloc(sb, s, s', b, b, ZeroBlock());
  }

  /** Everything about entry j of inode i's indirect block getting the free block b. */
  lemma NewEntry(sb: Super, s: Snap, s': Snap, i: nat, j: nat, b: nat, ind: nat, maps: seq<nat>)
    requires FsOk(sb, s.bitmap, s.blocks, s.inodes, s.slots) && i < |s.inodes| && j < NINDIRECT && b < sb.size
             && !s.bitmap[b]
    requires ind == s.inodes[i].addrs[NDIRECT] && 0 < ind < sb.size && Word(s.blocks[ind], j) == 0
    requires |s.slots[i]| == NSLOTS && s'.inodes == s.inodes && s'.slots == SetSlot(s.slots, i, NDIRECT + 1 + j, b)
    requires s'.bitmap == s.bitmap[b := true]
             && s'.blocks == s.blocks[b := ZeroBlock()][ind := SetWord(s.blocks[ind], j, b)]
    requires s'.logged == s.logged + [sb.bmapstart + b / BPB, b] + [ind] && maps == [sb.bmapstart + b / BPB]
    ensures SlotDone(sb, s, s', i, NDIRECT + 1 + j, Some(b), maps)
  {
    EmptyEntry(sb, s, i, j, b);
    StoreEntry(sb, s.bitmap, s.blocks, s.inodes, s.slots, i, j, b, s'.blocks);
    GrownByOne(sb, s.bitmap, s.blocks, s.slots, i, NDIRECT + 1 + j, b, s'.blocks);
    TrailAlloc(sb, s, s', b, ind, s'.blocks[ind]);
  }

  /** bmap logs the bitmap blocks, the block and the indirect block, if there is one (`ind` is not 0). */
  ghost predicate LogGains(s: Snap, s': Snap, addr: nat, maps: seq<nat>, ind: nat) {
    forall x :: x in s'.logged ==> x in s.logged || x in maps || x == addr || (ind != 0 && x == ind)
  }

  lemma GainsTwice(s: Snap, s1: Snap, s2: Snap, ind: nat, addr: nat, m1: seq<nat>, m2: seq<nat>)
    requires s1 == s || (|m1| == 1 && s1.logged == s.logged + [m1[0], ind] + [])
    requires |m2| == 1 && s2.logged == s1.logged + [m2[0], addr] + [ind] && ind != 0
    ensures LogGains(s, s2, addr, m1 + m2, ind)
  {
  }

  /** bmap of file block bn: as for a slot, but for the indirect block that may come first; `path` are the blocks
      taken. */
  ghost predicate BmapDone(sb: Super, s: Snap, s': Snap, i: nat, bn: nat, addr: Option<nat>, maps: seq<nat>,
                           path: seq<Alloc>)
  {
    && FsOk(sb, s'.bitmap, s'.blocks, s'.inodes, s'.slots) && Others(s, s', i)
    && bn < MAXFILE && i < |s.slots| == |s'.slots| && |s.slots[i]| == |s'.slots[i]| == NSLOTS
    && Grown(s.slots, s.blocks, s'.slots, s'.blocks) && Trail(sb, s, s', {})
    && (addr.Some? ==>
          && 0 < addr.value == s'.slots[i][FileSlot(bn)] < sb.size
          && (bn >= NDIRECT ==> s'.slots[i][NDIRECT] != 0))
    && (s.slots[i][FileSlot(bn)] != 0 ==> addr.Some? && maps == [] && s' == s)
    && (addr.Some? && s.slots[i][FileSlot(bn)] == 0 ==>
          && s'.blocks[addr.value] == ZeroBlock()
          && |maps| == 1 + (if bn >= NDIRECT && s.slots[i][NDIRECT] == 0 then 1 else 0)
          && LogGains(s, s', addr.value, maps, if bn < NDIRECT then 0 else s'.slots[i][NDIRECT]))
    && Takes(path, SlotsOf(bn), addr.Some?) && path[0] == Al(s, i) && path[|path| - 1] == Al(s', i)
  }

  lemma DirectDone(sb: Super, s: Snap, s': Snap, i: nat, bn: nat, addr: Option<nat>, maps: seq<nat>)
      returns (path: seq<Alloc>)
    requires SlotDone(sb, s, s', i, bn, addr, maps) && bn < NDIRECT
    ensures BmapDone(sb, s, s', i, bn, addr, maps, path)
  {
    if addr.Some? {
      TakesOne(Al(s, i), Al(s', i), bn);
      path := [Al(s, i), Al(s', i)];
    } else {
      path := TakesNoneOf(Al(s, i), [bn]);
    }
  }

  /** No block for the indirect block. */
  lemma NoIndirect(sb: Super, s: Snap, i: nat, j: nat) returns (path: seq<Alloc>)
    requires SlotDone(sb, s, s, i, NDIRECT, None, []) && j < NINDIRECT && RowIs(s.blocks, s.inodes[i], s.slots[i])
    ensures BmapDone(sb, s, s, i, NDIRECT + j, None, [], path)
  {
    path := TakesNoneOf(Al(s, i), [NDIRECT, NDIRECT + 1 + j]);
  }

  /** The indirect block, and then the entry. */
  lemma IndirectDone(sb: Super, s: Snap, s1: Snap, s2: Snap, i: nat, j: nat, ind: nat, addr: Option<nat>, m1: seq<nat>,
                     m2: seq<nat>)
    returns (path: seq<Alloc>)
    requires SlotDone(sb, s, s1, i, NDIRECT, Some(ind), m1) && SlotDone(sb, s1, s2, i, NDIRECT + 1 + j, addr, m2)
             && j < NINDIRECT
    requires RowIs(s.blocks, s.inodes[i], s.slots[i])
    ensures BmapDone(sb, s, s2, i, NDIRECT + j, addr, m1 + m2, path)
  {
    path := TakesTwo(Al(s, i), Al(s1, i), Al(s2, i), NDIRECT, NDIRECT + 1 + j, addr.Some?);
    GrownTrans(s.slots, s.blocks, s1.slots, s1.blocks, s2.slots, s2.blocks);
    TrailTrans(sb, s, s1, s2, {});
    assert Kept(s1.slots, s1.blocks, s2.slots, s2.blocks, i, NDIRECT);
    if addr.Some? && s1.slots[i][NDIRECT + 1 + j] == 0 {
      GainsTwice(s, s1, s2, ind, addr.value, m1, m2);
    }
    assert s.slots[i][NDIRECT] == 0 ==> s.slots[i][NDIRECT + 1 + j] == 0;
    assert s1.slots[i][NDIRECT + 1 + j] == s.slots[i][NDIRECT + 1 + j];
  }

  // ---- file contents

  /** Byte `pos` of the file whose blocks are `row`. */
  function ByteAt(row: seq<nat>, blocks: seq<Block>, pos: nat): int {
    var bn := pos / BSIZE;
    if |row| == NSLOTS && bn < MAXFILE && row[FileSlot(bn)] < |blocks| && blocks[row[FileSlot(bn)]].Valid()
    then blocks[row[FileSlot(bn)]].bytes[pos % BSIZE] else 0
  }

  /** That is, in the block named by one of the twelve addresses, or by an entry of the indirect block. */
  lemma ByteIs(blocks: seq<Block>, ino: Inode, row: seq<nat>, pos: nat)
    requires |ino.addrs| == NDIRECT + 1 && pos < MAXFILE * BSIZE && RowIs(blocks, ino, row)
    requires pos / BSIZE >= NDIRECT ==>
               0 < ino.addrs[NDIRECT] < |blocks| && blocks[ino.addrs[NDIRECT]].Valid()
    ensures var bn := pos / BSIZE;
      var b := if bn < NDIRECT then ino.addrs[bn] else Word(blocks[ino.addrs[NDIRECT]], bn - NDIRECT);
      b < |blocks| && blocks[b].Valid() ==> ByteAt(row, blocks, pos) == blocks[b].bytes[pos % BSIZE]
  {
  }

  /** The file as a flat sequence of bytes. */
  function Contents(row: seq<nat>, blocks: seq<Block>, size: nat): (s: seq<int>)
    ensures |s| == size && forall pos :: 0 <= pos < size ==> s[pos] == ByteAt(row, blocks, pos)
  {
    seq(size, pos requires 0 <= pos < size => ByteAt(row, blocks, pos))
  }

  ghost predicate Mapped(row: seq<nat>, bn: nat)
    requires |row| == NSLOTS && bn < MAXFILE
  {
    row[FileSlot(bn)] != 0
  }

  /** Every block index below ceil(size / BSIZE) is allocated. */
  ghost predicate NoHoles(row: seq<nat>, size: nat) {
    && |row| == NSLOTS && size <= MAXFILE * BSIZE
    && forall bn {:trigger Mapped(row, bn)} :: 0 <= bn < MAXFILE && bn * BSIZE < size ==> Mapped(row, bn)
  }

  // ---- truncation

  function Zeros(): (s: seq<nat>)
    ensures |s| == NSLOTS && forall k :: 0 <= k < NSLOTS ==> s[k] == 0
  {
    seq(NSLOTS, k => 0)
  }

  function SetRow(slots: seq<seq<nat>>, i: nat, row: seq<nat>): seq<seq<nat>>
    requires i < |slots|
  {
    slots[i := row]
  }

  /** Ownership fixes the bitmap: when inode i has given up everything, exactly its blocks are free again. */
  lemma TruncatedBitmap(sb: Super, bitmap: seq<bool>, bitmap': seq<bool>, slots: seq<seq<nat>>, i: nat)
    requires Owned(sb, bitmap, slots) && i < |slots| && Owned(sb, bitmap', SetRow(slots, i, Zeros()))
    ensures forall b :: 0 <= b < sb.size ==> (bitmap'[b] <==> bitmap[b] && (b == 0 || b !in slots[i]))
  {
    var s' := SetRow(slots, i, Zeros());
    forall b | sb.datastart <= b < sb.size ensures bitmap'[b] <==> bitmap[b] && b !in slots[i] {
      if bitmap[b] && b !in slots[i] {
        assert Names(slots, b);
        var j :| 0 <= j < |slots| && b in slots[j];
        assert b in s'[j];
      }
      if bitmap'[b] {
        assert Names(s', b);
        var j :| 0 <= j < |s'| && b in s'[j];
        assert j != i && b in slots[j];
      }
    }
    forall b | 0 < b < sb.datastart ensures b !in slots[i] {
      if b in slots[i] { assert false; }
    }
  }

  /** Clearing direct address k of inode i, its block already returned. */
  lemma ClearAddr(sb: Super, bitmap: seq<bool>, blocks: seq<Block>, inodes: seq<Inode>, slots: seq<seq<nat>>, i: nat,
                  k: nat)
    requires FsOk(sb, bitmap, blocks, inodes, slots) && i < |inodes| && k < NDIRECT && inodes[i].addrs[k] != 0
    ensures slots[i][k] == inodes[i].addrs[k] < sb.size && bitmap[inodes[i].addrs[k]]
    ensures FsOk(sb, bitmap[inodes[i].addrs[k] := false], blocks, inodes[i := SetAddr(inodes[i], k, 0)],
                 SetSlot(slots, i, k, 0))
  {
    var inodes' := inodes[i := SetAddr(inodes[i], k, 0)];
    var slots' := SetSlot(slots, i, k, 0);
    assert RowIs(blocks, inodes[i], slots[i]);
    FreeOwned(sb, bitmap, slots, i, k);
    forall j | 0 <= j < |inodes| ensures RowIs(blocks, inodes'[j], slots'[j]) {
      assert RowIs(blocks, inodes[j], slots[j]);
      if j == i {
        assert slots'[i] == Slots(inodes'[i], Ind(blocks, inodes'[i]));
      }
    }
  }

  /** g is `slots` with the first j entries of inode i's indirect block given back. */
  ghost predicate EntriesFreed(slots: seq<seq<nat>>, g: seq<seq<nat>>, i: nat, j: nat)
    requires i < |slots|
  {
    && |g| == |slots| && |g[i]| == |slots[i]| == NSLOTS && g == SetRow(slots, i, g[i])
    && forall k :: 0 <= k < NSLOTS ==> g[i][k] == if NDIRECT < k <= NDIRECT + j then 0 else slots[i][k]
  }

  lemma FreeEntry(sb: Super, bitmap: seq<bool>, slots: seq<seq<nat>>, g: seq<seq<nat>>, i: nat, j: nat)
    requires i < |slots| && j < NINDIRECT && EntriesFreed(slots, g, i, j) && Owned(sb, bitmap, g)
    ensures EntriesFreed(slots, SetSlot(g, i, NDIRECT + 1 + j, 0), i, j + 1)
    ensures var a := slots[i][NDIRECT + 1 + j];
      if a == 0 then Owned(sb, bitmap, SetSlot(g, i, NDIRECT + 1 + j, 0))
      else a < sb.size && bitmap[a] && Owned(sb, bitmap[a := false], SetSlot(g, i, NDIRECT + 1 + j, 0))
  {
    var k := NDIRECT + 1 + j;
    assert g[i][k] == slots[i][k];
    if g[i][k] != 0 {
      FreeOwned(sb, bitmap, g, i, k);
    } else {
      assert SetSlot(g, i, k, 0)[i] == g[i];
      assert SetSlot(g, i, k, 0) == g;
    }
  }

  lemma FreeIndirect(sb: Super, bitmap: seq<bool>, slots: seq<seq<nat>>, g: seq<seq<nat>>, i: nat)
    requires i < |slots| && EntriesFreed(slots, g, i, NINDIRECT) && Owned(sb, bitmap, g)
    requires slots[i][NDIRECT] != 0 && forall k :: 0 <= k < NDIRECT ==> slots[i][k] == 0
    ensures slots[i][NDIRECT] < sb.size && bitmap[slots[i][NDIRECT]]
    ensures Owned(sb, bitmap[slots[i][NDIRECT] := false], SetRow(slots, i, Zeros()))
  {
    FreeOwned(sb, bitmap, g, i, NDIRECT);
    assert SetSlot(g, i, NDIRECT, 0)[i] == Zeros();
    assert SetSlot(g, i, NDIRECT, 0) == SetRow(slots, i, Zeros());
  }

  /** An inode that names nothing, with everybody else as before. */
  lemma EmptyRow(sb: Super, bitmap: seq<bool>, bitmap': seq<bool>, blocks: seq<Block>, inodes: seq<Inode>,
                 slots: seq<seq<nat>>, i: nat)
    requires FsOk(sb, bitmap, blocks, inodes, slots) && i < |inodes|
    requires Owned(sb, bitmap', SetRow(slots, i, Zeros()))
    ensures FsOk(sb, bitmap', blocks, inodes[i := inodes[i].Emptied()], SetRow(slots, i, Zeros()))
  {
    var empty := inodes[i].Emptied();
    forall j | 0 <= j < |inodes| ensures RowIs(blocks, inodes[i := empty][j], SetRow(slots, i, Zeros())[j]) {
      assert RowIs(blocks, inodes[j], slots[j]);
      if j == i {
        assert Zeros() == Slots(empty, Ind(blocks, empty));
      }
    }
  }

  class Fs {
    const sb: Super
    var bitmap: seq<bool>
    var blocks: seq<Block>
    var inodes: seq<Inode>
    /** The blocks passed to log_write, in order. */
    var logged: seq<nat>
    /** The blocks each inode names. */
    ghost var slots: seq<seq<nat>>

    constructor (sb: Super, s: Snap)
      ensures this.sb == sb && S() == s
    {
      this.sb, bitmap, blocks, inodes := sb, s.bitmap, s.blocks, s.inodes;
      logged, slots := s.logged, s.slots;
    }

    ghost predicate Valid()
      reads this
    {
      FsOk(sb, bitmap, blocks, inodes, slots)
    }

    ghost function S(): Snap
      reads this
    {
      Snap(bitmap, blocks, inodes, slots, logged)
    }

    /** The inodes in memory are those on disk. */
    ghost predicate Synced()
      reads this
    {
      SyncedBut(sb, blocks, inodes, {})
    }

    /** balloc: the first block whose bit is clear, marked and zeroed. None stands for the panic. */
    method Balloc() returns (r: Option<nat>)
      requires sb.Valid() && |bitmap| == |blocks| == sb.size
      modifies this`bitmap, this`blocks, this`logged
      ensures r.None? ==>
                && bitmap == old(bitmap) && blocks == old(blocks) && logged == old(logged)
                && forall b :: 0 <= b < sb.size ==> bitmap[b]
      ensures r.Some? ==>
                && r.value < sb.size && !old(bitmap)[r.value] && (forall b :: 0 <= b < r.value ==> old(bitmap)[b])
                && bitmap == old(bitmap)[r.value := true] && blocks == old(blocks)[r.value := ZeroBlock()]
                && logged == old(logged) + [sb.bmapstart + r.value / BPB, r.value]
    {
      var b := 0;
      while b < sb.size
        invariant b % BPB == 0 && bitmap == old(bitmap) && blocks == old(blocks) && logged == old(logged)
        invariant forall c :: 0 <= c < b && c < sb.size ==> bitmap[c]
      {
        var bi := 0;
        while bi < BPB && b + bi < sb.size
          invariant 0 <= bi <= BPB && bitmap == old(bitmap) && blocks == old(blocks) && logged == old(logged)
          invariant forall c :: 0 <= c < b + bi && c < sb.size ==> bitmap[c]
        {
          if !bitmap[b + bi] {
            assert (b + bi) / BPB == b / BPB;
            bitmap := bitmap[b + bi := true];
            logged := logged + [sb.bmapstart + b / BPB];
            blocks := blocks[b + bi := ZeroBlock()];
            logged := logged + [b + bi];
            return Some(b + bi);
          }
          bi := bi + 1;
        }
        b := b + BPB;
      }
      return None;
    }

    /** bfree. False stands for the panic "freeing free block". */
    method Bfree(b: nat) returns (ok: bool)
      requires b < |bitmap|
      modifies this`bitmap, this`logged
      ensures ok == old(bitmap)[b]
      ensures ok ==> bitmap == old(bitmap)[b := false] && logged == old(logged) + [sb.bmapstart + b / BPB]
      ensures !ok ==> bitmap == old(bitmap) && logged == old(logged)
    {
      ok := bitmap[b];
      if ok {
        bitmap := bitmap[b := false];
        logged := logged + [sb.bmapstart + b / BPB];
      }
    }

    /** bmap for one of the direct addresses, and for the address of the indirect block (k == NDIRECT).
        `maps` lists the bitmap blocks that were logged. */
    method MapAddr(i: nat, k: nat) returns (addr: Option<nat>, ghost maps: seq<nat>)
      requires Valid() && i < |inodes| && k <= NDIRECT
      modifies this`bitmap, this`blocks, this`inodes, this`logged, this`slots
      ensures SlotDone(sb, old(S()), S(), i, k, addr, maps)
    {
      maps := [];
      var a := inodes[i].addrs[k];
      assert RowIs(blocks, inodes[i], slots[i]);
      if a != 0 {
        SlotThere(sb, S(), i, k);
        return Some(a), [];
      }
      addr := Balloc();
      if addr.None? {
        SlotLacking(sb, S(), i, k);
        return;
      }
      inodes := inodes[i := SetAddr(inodes[i], k, addr.value)];
      slots := SetSlot(slots, i, k, addr.value);
      maps := [sb.bmapstart + addr.value / BPB];
      NewAddr(sb, old(S()), S(), i, k, addr.value, maps);
    }

    /** bmap for entry j of an indirect block that exists. */
    method MapEntry(i: nat, j: nat) returns (addr: Option<nat>, ghost maps: seq<nat>)
      requires Valid() && i < |inodes| && j < NINDIRECT && 0 < inodes[i].addrs[NDIRECT] < sb.size
      modifies this`bitmap, this`blocks, this`logged, this`slots
      ensures SlotDone(sb, old(S()), S(), i, NDIRECT + 1 + j, addr, maps)
    {
      maps := [];
      var ind := inodes[i].addrs[NDIRECT];
      var a := Word(blocks[ind], j);
      assert RowIs(blocks, inodes[i], slots[i]);
      assert slots[i][NDIRECT + 1 + j] == a;
      if a != 0 {
        SlotThere(sb, S(), i, NDIRECT + 1 + j);
        return Some(a), [];
      }
      addr := Balloc();
      if addr.None? {
        SlotLacking(sb, S(), i, NDIRECT + 1 + j);
        return;
      }
      EmptyEntry(sb, old(S()), i, j, addr.value);
      blocks := blocks[ind := SetWord(blocks[ind], j, addr.value)];
      logged := logged + [ind];
      slots := SetSlot(slots, i, NDIRECT + 1 + j, addr.value);
      maps := [sb.bmapstart + addr.value / BPB];
      NewEntry(sb, old(S()), S(), i, j, addr.value, ind, maps);
    }

    /** bmap for a block beyond the direct ones: the indirect block first, then its entry. */
    method MapIndirect(i: nat, j: nat) returns (addr: Option<nat>, ghost maps: seq<nat>, ghost path: seq<Alloc>)
      requires Valid() && i < |inodes| && j < NINDIRECT
      modifies this`bitmap, this`blocks, this`inodes, this`logged, this`slots
      ensures BmapDone(sb, old(S()), S(), i, NDIRECT + j, addr, maps, path)
    {
      ghost var s := S();
      assert RowIs(blocks, inodes[i], slots[i]);
      var ind, maps1 := MapAddr(i, NDIRECT);
      if ind.None? {
        path := NoIndirect(sb, s, i, j);
        return None, [], path;
      }
      ghost var s1 := S();
      assert RowIs(blocks, inodes[i], slots[i]);
      ghost var maps2;
      addr, maps2 := MapEntry(i, j);
      maps := maps1 + maps2;
      path := IndirectDone(sb, s, s1, S(), i, j, ind.value, addr, maps1, maps2);
    }

    /** bmap. None stands for a panic: bn out of range, or no block left. */
    method Bmap(i: nat, bn: nat) returns (addr: Option<nat>, ghost maps: seq<nat>, ghost path: seq<Alloc>)
      requires Valid() && i < |inodes|
      modifies this`bitmap, this`blocks, this`inodes, this`logged, this`slots
      ensures bn >= MAXFILE ==> addr.None? && S() == old(S())
      ensures bn < MAXFILE ==> BmapDone(sb, old(S()), S(), i, bn, addr, maps, path)
      ensures addr.None? && bn < MAXFILE ==> forall b :: 0 <= b < sb.size ==> bitmap[b]
    {
      if bn < NDIRECT {
        addr, maps := MapAddr(i, bn);
        path := DirectDone(sb, old(S()), S(), i, bn, addr, maps);
      } else if bn < MAXFILE {
        addr, maps, path := MapIndirect(i, bn - NDIRECT);
      } else {
        addr, maps, path := None, [], [];
      }
    }

    /** iupdate: inode i goes to its place in its inode block, where ilock finds it; the other inodes on disk stay. */
    method Iupdate(i: nat)
      requires Valid() && i < |inodes|
      modifies this`blocks, this`logged
      ensures Valid() && Updated(sb, old(S()), S(), i)
    {
      InodeBlock(sb, |inodes|, i);
      AddrsFit(sb, bitmap, blocks, inodes, slots, i);
      var b := IBlock(sb, i);
      var nb := StoreDinode(blocks[b], i % IPB, inodes[i]);
      UpdateSynced(sb, bitmap, blocks, inodes, i, nb);
      MetaWrite(sb, bitmap, blocks, inodes, slots, b, nb);
      blocks := blocks[b := nb];
      logged := logged + [b];
    }

    /** itrunc's loop over the direct blocks. */
    method TruncDirect(i: nat) returns (ok: bool)
      requires Valid() && i < |inodes|
      modifies this`bitmap, this`inodes, this`logged, this`slots
      ensures ok && Valid() && |inodes| == |old(inodes)| && inodes[i].(addrs := old(inodes)[i].addrs) == old(inodes)[i]
      ensures forall j :: 0 <= j < |inodes| && j != i ==> inodes[j] == old(inodes)[j]
      ensures forall k :: 0 <= k < NDIRECT ==> inodes[i].addrs[k] == 0
      ensures |slots| == |old(slots)| && slots == SetRow(old(slots), i, slots[i])
              && |slots[i]| == |old(slots)[i]| == NSLOTS
      ensures slots[i][NDIRECT..] == old(slots)[i][NDIRECT..]
      ensures LogHas(sb, old(slots)[i], 0, NDIRECT, old(logged), logged)
    {
      ghost var row := slots[i];
      assert RowIs(blocks, inodes[i], row);
      LogHasNothing(sb, row, 0, logged);
      var k := 0;
      while k < NDIRECT
        invariant 0 <= k <= NDIRECT && Valid() && |inodes| == |old(inodes)|
        invariant inodes[i].(addrs := old(inodes)[i].addrs) == old(inodes)[i]
        invariant forall j :: 0 <= j < |inodes| && j != i ==> inodes[j] == old(inodes)[j]
        invariant forall h :: 0 <= h < k ==> inodes[i].addrs[h] == 0
        invariant |slots| == |old(slots)| && slots == SetRow(old(slots), i, slots[i]) && |slots[i]| == |row| == NSLOTS
        invariant forall h :: k <= h < NSLOTS ==> slots[i][h] == row[h]
        invariant LogHas(sb, row, 0, k, old(logged), logged)
      {
        assert RowIs(blocks, inodes[i], slots[i]);
        assert slots[i][k] == inodes[i].addrs[k];
        ghost var lg := logged;
        if inodes[i].addrs[k] != 0 {
          ClearAddr(sb, bitmap, blocks, inodes, slots, i, k);
          ok := Bfree(inodes[i].addrs[k]);
          if !ok {
            return;
          }
          slots := SetSlot(slots, i, k, 0);
          inodes := inodes[i := SetAddr(inodes[i], k, 0)];
        }
        LogHasNext(sb, row, 0, k, old(logged), lg, logged);
        k := k + 1;
      }
      ok := true;
    }
  
    /** itrunc's second half: the entries of the indirect block, which stay in place, and then the block itself. */
    method TruncIndirect(i: nat) returns (ok: bool)
      requires Valid() && i < |inodes| && inodes[i].addrs[NDIRECT] != 0
      requires forall k :: 0 <= k < NDIRECT ==> inodes[i].addrs[k] == 0
      modifies this`bitmap, this`logged
      ensures ok && Owned(sb, bitmap, SetRow(slots, i, Zeros()))
      ensures |slots[i]| == NSLOTS && LogHas(sb, slots[i], NDIRECT, NSLOTS, old(logged), logged)
    {
      var ind := inodes[i].addrs[NDIRECT];
      assert RowIs(blocks, inodes[i], slots[i]);
      assert slots[i][NDIRECT] == ind && slots[i][NDIRECT] in slots[i];
      ghost var g := slots;
      LogHasNothing(sb, slots[i], NDIRECT + 1, logged);
      var j := 0;
      while j < NINDIRECT
        invariant 0 <= j <= NINDIRECT && Owned(sb, bitmap, g) && EntriesFreed(slots, g, i, j)
        invariant LogHas(sb, slots[i], NDIRECT + 1, NDIRECT + 1 + j, old(logged), logged)
      {
        var a := Word(blocks[ind], j);
        assert slots[i][NDIRECT + 1 + j] == a;
        FreeEntry(sb, bitmap, slots, g, i, j);
        ghost var lg := logged;
        if a != 0 {
          ok := Bfree(a);
          if !ok {
            return;
          }
        }
        LogHasNext(sb, slots[i], NDIRECT + 1, NDIRECT + 1 + j, old(logged), lg, logged);
        g := SetSlot(g, i, NDIRECT + 1 + j, 0);
        j := j + 1;
      }
      FreeIndirect(sb, bitmap, slots, g, i);
      ghost var lg := logged;
      ok := Bfree(ind);
      LogHasFirst(sb, slots[i], NDIRECT, NSLOTS, old(logged), lg, logged);
    }

    /** All of itrunc but the last line. */
    method TruncAll(i: nat) returns (ok: bool)
      requires Valid() && i < |inodes|
      modifies this`bitmap, this`inodes, this`logged, this`slots
      ensures ok && Valid()
      ensures inodes == old(inodes)[i := old(inodes)[i].Emptied()]
      ensures slots == SetRow(old(slots), i, Zeros())
      ensures forall b :: 0 <= b < sb.size ==> (bitmap[b] <==> old(bitmap)[b] && (b == 0 || b !in old(slots)[i]))
      ensures |old(slots)[i]| == NSLOTS && LogHas(sb, old(slots)[i], 0, NSLOTS, old(logged), logged)
    {
      ok := TruncDirect(i);
      assert RowIs(blocks, inodes[i], slots[i]);
      ghost var bitmap1, logged1 := bitmap, logged;
      ghost var rest := SetRow(slots, i, Zeros());
      assert rest == SetRow(old(slots), i, Zeros());
      if inodes[i].addrs[NDIRECT] != 0 {
        ok := TruncIndirect(i);
      } else {
        assert slots[i] == Zeros();
        assert slots == rest;
        assert BitBlocks(sb, slots[i], NDIRECT, NSLOTS) == {};
      }
      LogHasBoth(sb, old(slots)[i], slots[i], NDIRECT, old(logged), logged1, logged);
      EmptyRow(sb, bitmap1, bitmap, blocks, inodes, slots, i);
      TruncatedBitmap(sb, old(bitmap), bitmap, old(slots), i);
      inodes := inodes[i := inodes[i].Emptied()];
      slots := rest;
    }

    /** itrunc: the inode becomes empty, on disk too, and exactly its blocks become free. It never panics. It logs the
        bitmap blocks of the blocks it frees, and the inode block last. */
    method Itrunc(i: nat) returns (ok: bool)
      requires Valid() && i < |inodes|
      modifies this`bitmap, this`blocks, this`inodes, this`logged, this`slots
      ensures ok && Valid()
      ensures inodes == old(inodes)[i := old(inodes)[i].Emptied()]
      ensures slots == SetRow(old(slots), i, Zeros())
      ensures forall b :: 0 <= b < sb.size ==> (bitmap[b] <==> old(bitmap)[b] && (b == 0 || b !in old(slots)[i]))
      ensures |logged| > |old(logged)| && logged[|logged| - 1] == IBlock(sb, i)
      ensures |old(slots)[i]| == NSLOTS && LogHas(sb, old(slots)[i], 0, NSLOTS, old(logged), logged[..|logged| - 1])
      ensures Logged(sb, old(S()), S(), {}) && (old(SyncedBut(sb, blocks, inodes, {i})) ==> Synced())
    {
      ok := TruncAll(i);
      ghost var s1 := S();
      TruncLogged(sb, old(S()), s1, i);
      Iupdate(i);
      assert logged[..|logged| - 1] == s1.logged;
      Persisted(sb, old(S()), s1, S(), i, {});
    }
  
    /** One round of readi: the block that bmap finds, without allocating, holds the next m bytes of the file. */
    method ReadOne(i: nat, off: nat, m: nat) returns (chunk: seq<int>)
      requires Valid() && i < |inodes| && NoHoles(slots[i], inodes[i].size)
      requires 0 < m <= BSIZE - off % BSIZE && off + m <= inodes[i].size
      modifies this`bitmap, this`blocks, this`inodes, this`logged, this`slots
      ensures bitmap == old(bitmap) && blocks == old(blocks) && inodes == old(inodes)
      ensures logged == old(logged) && slots == old(slots)
      ensures chunk == Contents(slots[i], blocks, inodes[i].size)[off..off + m]
    {
      assert Mapped(slots[i], off / BSIZE);
      var addr, _, _ := Bmap(i, off / BSIZE);
      chunk := blocks[addr.value].bytes[off % BSIZE..off % BSIZE + m];
      ChunkIs(slots[i], blocks, inodes[i].size, off, m, addr.value);
    }

    /** readi, copying to a destination that takes only the first `room` bytes. It never allocates: it changes
        nothing. */
    method Readi(i: nat, offset: nat, count: nat, room: nat) returns (r: int, data: seq<int>)
      requires Valid() && i < |inodes| && offset < 0x1_0000_0000 && count < 0x1_0000_0000
      requires NoHoles(slots[i], inodes[i].size)
      modifies this`bitmap, this`blocks, this`inodes, this`logged, this`slots
      ensures bitmap == old(bitmap) && blocks == old(blocks) && inodes == old(inodes)
      ensures logged == old(logged) && slots == old(slots)
      ensures offset > inodes[i].size || offset + count >= 0x1_0000_0000 ==> r == 0 && data == []
      ensures offset <= inodes[i].size && offset + count < 0x1_0000_0000 ==>
                var n := if offset + count > inodes[i].size then inodes[i].size - offset else count;
                if n <= room then r == n && data == Contents(slots[i], blocks, inodes[i].size)[offset..offset + n]
                else r == -1
    {
      data := [];
      if offset > inodes[i].size || (offset + count) % 0x1_0000_0000 < offset {
        return 0, [];
      }
      var n := if offset + count > inodes[i].size then inodes[i].size - offset else count;
      var tot, off := 0, offset;
      ghost var file := Contents(slots[i], blocks, inodes[i].size);
      while tot < n
        invariant 0 <= tot <= n && off == offset + tot && tot <= room
        invariant bitmap == old(bitmap) && blocks == old(blocks) && inodes == old(inodes)
        invariant logged == old(logged) && slots == old(slots)
        invariant data == file[offset..off]
      {
        var m := if n - tot < BSIZE - off % BSIZE then n - tot else BSIZE - off % BSIZE;
        var chunk := ReadOne(i, off, m);
        if tot + m > room {
          return -1, data;
        }
        SliceMore(file, offset, off, m);
        data := data + chunk;
        tot := tot + m;
        off := off + m;
      }
      r := tot;
    }

    /** The part of a round of writei after bmap: the bytes go into the block. */
    method Patch(i: nat, off: nat, piece: seq<int>, addr: nat, ghost cur: seq<int>, ghost was: seq<seq<int>>)
      requires Valid() && i < |inodes| && off / BSIZE < MAXFILE && 0 < addr == slots[i][FileSlot(off / BSIZE)] < sb.size
      requires 0 < |piece| <= BSIZE - off % BSIZE && forall k :: 0 <= k < |piece| ==> 0 <= piece[k] < 256
      requires off <= |cur| && FileReads(slots[i], blocks, |cur|, cur) && OthersRead(S(), i, was)
      modifies this`blocks
      ensures Valid() && FileReads(slots[i], blocks, |Splice(cur, off, piece)|, Splice(cur, off, piece))
      ensures sb.datastart <= addr && |blocks| == |old(blocks)|
      ensures forall b :: 0 <= b < |blocks| && b != addr ==> blocks[b] == old(blocks)[b]
      ensures OthersRead(S(), i, was)
    {
      var nb := Patched(blocks[addr], off % BSIZE, piece);
      assert slots[i][FileSlot(off / BSIZE)] in slots[i];
      WriteElsewhere(sb, bitmap, blocks, inodes, slots, i, off / BSIZE, nb);
      PatchedFile(slots[i], blocks, addr, off, piece, cur);
      forall j | 0 <= j < |slots| && j != i ensures FileReads(slots[j], blocks[addr := nb], inodes[j].size, was[j]) {
        assert FileReads(slots[j], blocks, inodes[j].size, was[j]);
        OtherFile(slots[j], blocks, addr, nb, inodes[j].size);
      }
      blocks := blocks[addr := nb];
    }

    /** writei, copying from a source of which only the first `room` bytes can be read. None stands for a panic (out of
        blocks). `data` and `maps` list the data and bitmap blocks that were logged, one data block a round. */
    method Writei(i: nat, offset: nat, src: seq<int>, room: nat)
      returns (r: Option<int>, ghost data: seq<nat>, ghost maps: seq<nat>)
      requires Valid() && i < |inodes| && FilesOk() && offset < 0x1_0000_0000 && |src| < 0x1_0000_0000
      requires forall k :: 0 <= k < |src| ==> 0 <= src[k] < 256
      modifies this`bitmap, this`blocks, this`inodes, this`logged, this`slots
      ensures Valid() && |inodes| == |old(inodes)|
      ensures r.Some? ==> WriteDone(sb, old(S()), S(), i, offset, src, room, r.value, data, maps)
      ensures r.Some? && r.value >= 0 ==> PaidFor(old(S()), S(), i, Reach(offset, |src|, room))
      ensures r.None? <==>
                offset <= old(inodes)[i].size && offset + |src| <= MAXFILE * BSIZE
                    && BrokeAt(old(S()), i, Reach(offset, |src|, room))
    {
      data, maps := [], [];
      if offset > inodes[i].size || (offset + |src|) % 0x1_0000_0000 < offset {
        return Some(-1), [], [];
      }
      if offset + |src| > MAXFILE * BSIZE {
        return Some(-1), [], [];
      }
      ghost var path;
      r, data, maps, path := WriteAll(i, offset, src, room);
      AskedOutcome(old(S()), S(), i, path, offset, |src|, room, r.Some?);
      if r.Some? { PaidNotBroke(old(bitmap), old(slots)[i], bitmap, slots[i], Reach(offset, |src|, room)); }
    }

    /** writei once the bounds are checked. */
    method WriteAll(i: nat, offset: nat, src: seq<int>, room: nat)
      returns (r: Option<int>, ghost data: seq<nat>, ghost maps: seq<nat>, ghost path: seq<Alloc>)
      requires Valid() && i < |inodes| && FilesOk() && offset <= inodes[i].size && offset + |src| <= MAXFILE * BSIZE
      requires forall k :: 0 <= k < |src| ==> 0 <= src[k] < 256
      modifies this`bitmap, this`blocks, this`inodes, this`logged, this`slots
      ensures Valid() && |inodes| == |old(inodes)|
      ensures r.Some? ==> r.value >= 0 && WriteDone(sb, old(S()), S(), i, offset, src, room, r.value, data, maps)
      ensures Takes(path, Asked(offset, |src|, room), r.Some?) && path[0] == old(Al(S(), i))
              && path[|path| - 1] == Al(S(), i)
    {
      ghost var s0 := S();
      FilesRead(s0, i);
      var tot;
      tot, data, maps, path := WriteLoop(i, offset, src, room, FilesOf(s0)[i], FilesOf(s0));
      if tot.None? {
        return None, data, maps, path;
      }
      WriteEnd(i, offset, src, room, tot.value, data, maps, s0);
      r := Some(tot.value);
    }

    /** The lines after the loop. */
    method WriteEnd(i: nat, offset: nat, ghost src: seq<int>, ghost room: nat, tot: nat, ghost data: seq<nat>,
                    ghost maps: seq<nat>, ghost s0: Snap)
      requires i < |s0.slots| == |s0.inodes|
      requires Wrote(sb, s0, S(), i, offset, src, room, tot, data, maps, FilesOf(s0)[i], FilesOf(s0))
      modifies this`inodes, this`blocks, this`logged
      ensures Valid() && |inodes| == |old(inodes)|
      ensures WriteDone(sb, s0, S(), i, offset, src, room, tot, data, maps)
    {
      ghost var s1 := S();
      ReachedSize(FilesOf(s0)[i], offset, src, room, tot);
      WriteBack(i, offset + tot, Reached(FilesOf(s0)[i], offset, src, room), FilesOf(s0));
      WroteAll(sb, s0, s1, S(), i, offset, src, room, tot, data, maps);
    }

    /** The end of writei: the new size, and iupdate. Bytes beyond the size do not count as the file's. */
    method WriteBack(i: nat, end: nat, ghost now: seq<int>, ghost was: seq<seq<int>>)
      requires Valid() && i < |inodes| && inodes[i].size <= |now| && end <= |now|
      requires FileReads(slots[i], blocks, |now|, now) && OthersRead(S(), i, was)
      modifies this`inodes, this`blocks, this`logged
      ensures Valid() && |inodes| == |old(inodes)| && FilesOk()
      ensures inodes[i].size == if end > old(inodes)[i].size then end else old(inodes)[i].size
      ensures inodes[i] == old(inodes)[i].(size := inodes[i].size)
      ensures FilesOf(S()) == was[i := now[..inodes[i].size]]
      ensures Updated(sb, old(S()), S(), i)
    {
      ghost var s0 := S();
      if end > inodes[i].size {
        SetSize(sb, bitmap, blocks, inodes, slots, i, end);
        inodes := inodes[i := inodes[i].(size := end)];
      }
      ghost var s1 := S();
      Iupdate(i);
      UpdatedFrom(sb, s0, s1, S(), i);
      UpdatedReads(sb, s0, S(), i, now, was);
    }

    /** One round of the loop; on a failed copy (`stop`) the bytes that could be read are in the block, which is not
        logged. */
    method WriteStep(i: nat, offset: nat, src: seq<int>, room: nat, tot: nat, ghost data: seq<nat>,
                     ghost maps: seq<nat>, ghost file: seq<int>, ghost was: seq<seq<int>>, ghost s0: Snap)
      returns (ok: bool, next: nat, stop: bool, ghost data': seq<nat>, ghost maps': seq<nat>, ghost path: seq<Alloc>)
      requires Writing(sb, s0, S(), i, offset, src, tot, data, maps, file, was) && tot < |src| && tot <= room
      modifies this`bitmap, this`blocks, this`inodes, this`logged, this`slots
      ensures next == tot + Round(offset, |src|, tot) && stop == (next > room)
      ensures Stepped(sb, s0, old(S()), S(), i, offset, src, room, tot, next, data', maps', file, was, ok, path)
    {
      ghost var s1 := S();
      next := tot + if |src| - tot < BSIZE - (offset + tot) % BSIZE then |src| - tot
          else BSIZE - (offset + tot) % BSIZE;
      stop := next > room;
      var to := if stop then room else next;
      var addr;
      ghost var more;
      addr, more, path := WriteRound(i, offset + tot, src[tot..to], !stop, Splice(file, offset, src[..tot]), was);
      ok, data', maps' := addr.Some?, data, maps;
      if ok {
        data', maps' := data + [addr.value], maps + more;
        if stop {
          StopNext(sb, s0, s1, S(), i, offset, src, room, tot, data, maps, file, was, addr.value, more);
        } else {
          WritingNext(sb, s0, s1, S(), i, offset, src, tot, to, data, maps, file, was, addr.value, more);
        }
      }
    }

    /** The body of the loop of writei. It either ends the loop with r or goes on with `next`. */
    method WriteBody(i: nat, offset: nat, src: seq<int>, room: nat, tot: nat, ghost data: seq<nat>,
                     ghost maps: seq<nat>, ghost file: seq<int>, ghost was: seq<seq<int>>, ghost s0: Snap,
                     ghost cur: nat, ghost path: seq<Alloc>)
      returns (done: bool, r: Option<nat>, next: nat, ghost data': seq<nat>, ghost maps': seq<nat>, ghost cur': nat,
               ghost path': seq<Alloc>)
      requires Looping(sb, s0, S(), i, offset, src, room, tot, data, maps, file, was, cur, path) && tot < |src|
      modifies this`bitmap, this`blocks, this`inodes, this`logged, this`slots
      ensures done ==> Looped(sb, s0, S(), i, offset, src, room, r, data', maps', file, was, path')
      ensures !done ==>
                tot < next && Looping(sb, s0, S(), i, offset, src, room, next, data', maps', file, was, cur', path')
    {
      ghost var s1, step := S(), [];
      var ok, stop;
      ok, next, stop, data', maps', step := WriteStep(i, offset, src, room, tot, data, maps, file, was, s0);
      cur', path' := LoopNext(sb, s0, s1, S(), i, offset, src, room, tot, next, data, maps, data', maps', file, was,
                              cur, path, ok, step);
      done, r := !ok || stop, if ok then Some(tot) else None;
    }

    /** The loop of writei. `path` are the blocks it takes, one slot after another. */
    method WriteLoop(i: nat, offset: nat, src: seq<int>, room: nat, ghost file: seq<int>, ghost was: seq<seq<int>>)
      returns (r: Option<nat>, ghost data: seq<nat>, ghost maps: seq<nat>, ghost path: seq<Alloc>)
      requires Valid() && i < |inodes| && offset <= |file| && offset + |src| <= MAXFILE * BSIZE
      requires FileReads(slots[i], blocks, |file|, file) && OthersRead(S(), i, was)
      requires forall k :: 0 <= k < |src| ==> 0 <= src[k] < 256
      modifies this`bitmap, this`blocks, this`inodes, this`logged, this`slots
      ensures Looped(sb, old(S()), S(), i, offset, src, room, r, data, maps, file, was, path)
    {
      var tot := 0;
      ghost var s0 := S();
      ghost var cur: nat := offset / BSIZE;
      data, maps, path := [], [], [Al(s0, i)];
      LoopStart(sb, s0, i, offset, src, room, file, was);
      while tot < |src|
        invariant Looping(sb, s0, S(), i, offset, src, room, tot, data, maps, file, was, cur, path)
      {
        var done;
        done, r, tot, data, maps, cur, path :=
          WriteBody(i, offset, src, room, tot, data, maps, file, was, s0, cur, path);
        if done {
          return;
        }
      }
      LoopEnd(sb, s0, S(), i, offset, src, room, data, maps, file, was, cur, path);
      r := Some(tot);
    }

    /** No file has a hole. */
    ghost predicate FilesOk()
      requires |slots| == |inodes|
      reads this
    {
      NoHolesIn(S())
    }

    /** One round of writei: `piece` is what can be read, and `fits` says whether that is all the round asks for.
        None stands for a panic in bmap. */
    method WriteRound(i: nat, off: nat, piece: seq<int>, fits: bool, ghost cur: seq<int>, ghost was: seq<seq<int>>)
      returns (addr: Option<nat>, ghost maps: seq<nat>, ghost path: seq<Alloc>)
      requires Valid() && i < |inodes| && off / BSIZE < MAXFILE && off <= |cur|
      requires |piece| <= BSIZE - off % BSIZE && forall k :: 0 <= k < |piece| ==> 0 <= piece[k] < 256
      requires FileReads(slots[i], blocks, |cur|, cur) && OthersRead(S(), i, was)
      modifies this`bitmap, this`blocks, this`inodes, this`logged, this`slots
      ensures Valid() && Others(old(S()), S(), i)
      ensures addr.Some? ==>
                Rounded(sb, old(S()), S(), i, off, if fits then [addr.value] else [], addr.value, maps,
                        Splice(cur, off, piece), was)
      ensures Takes(path, SlotsOf(off / BSIZE), addr.Some?) && path[0] == old(Al(S(), i))
              && path[|path| - 1] == Al(S(), i)
    {
      addr, maps, path := MapRound(i, off, cur, was);
      if addr.None? { return; }
      ghost var s1 := S();
      PutRound(i, off, piece, fits, addr.value, cur, was);
      RoundedNext(sb, old(S()), s1, S(), i, off, fits, addr.value, maps, cur, Splice(cur, off, piece), was);
    }

    /** The copy, and log_write if all of it could be made. */
    method PutRound(i: nat, off: nat, piece: seq<int>, fits: bool, addr: nat, ghost cur: seq<int>,
                    ghost was: seq<seq<int>>)
      requires Valid() && i < |inodes| && off / BSIZE < MAXFILE && off <= |cur|
               && 0 < addr == slots[i][FileSlot(off / BSIZE)] < sb.size
      requires |piece| <= BSIZE - off % BSIZE && forall k :: 0 <= k < |piece| ==> 0 <= piece[k] < 256
      requires FileReads(slots[i], blocks, |cur|, cur) && OthersRead(S(), i, was)
      modifies this`blocks, this`logged
      ensures Valid() && FileReads(slots[i], blocks, |Splice(cur, off, piece)|, Splice(cur, off, piece))
              && OthersRead(S(), i, was)
      ensures logged == old(logged) + (if fits then [addr] else [])
              && Trail(sb, old(S()), S(), if fits then {} else {addr})
    {
      PutBytes(i, off, piece, addr, cur, was);
      ghost var s1 := S();
      if fits {
        logged := logged + [addr];
        TrailLogged(sb, old(S()), s1, S(), addr);
      }
    }

    method PutBytes(i: nat, off: nat, piece: seq<int>, addr: nat, ghost cur: seq<int>, ghost was: seq<seq<int>>)
      requires Valid() && i < |inodes| && off / BSIZE < MAXFILE && off <= |cur|
               && 0 < addr == slots[i][FileSlot(off / BSIZE)] < sb.size
      requires |piece| <= BSIZE - off % BSIZE && forall k :: 0 <= k < |piece| ==> 0 <= piece[k] < 256
      requires FileReads(slots[i], blocks, |cur|, cur) && OthersRead(S(), i, was)
      modifies this`blocks
      ensures Valid() && FileReads(slots[i], blocks, |Splice(cur, off, piece)|, Splice(cur, off, piece))
              && OthersRead(S(), i, was) && Trail(sb, old(S()), S(), {addr})
    {
      if |piece| > 0 {
        Patch(i, off, piece, addr, cur, was);
      } else {
        assert Splice(cur, off, piece) == cur;
      }
    }

    /** bmap changes what no file reads. */
    method MapRound(i: nat, off: nat, ghost cur: seq<int>, ghost was: seq<seq<int>>)
      returns (addr: Option<nat>, ghost maps: seq<nat>, ghost path: seq<Alloc>)
      requires Valid() && i < |inodes| && off / BSIZE < MAXFILE
      requires FileReads(slots[i], blocks, |cur|, cur) && OthersRead(S(), i, was)
      modifies this`bitmap, this`blocks, this`inodes, this`logged, this`slots
      ensures Valid() && Others(old(S()), S(), i)
      ensures addr.Some? ==>
                && 0 < addr.value == slots[i][FileSlot(off / BSIZE)] < sb.size
                && Rounded(sb, old(S()), S(), i, off, [], addr.value, maps, cur, was) && Trail(sb, old(S()), S(), {})
      ensures Takes(path, SlotsOf(off / BSIZE), addr.Some?) && path[0] == old(Al(S(), i))
              && path[|path| - 1] == Al(S(), i)
    {
      addr, maps, path := Bmap(i, off / BSIZE);
      if addr.None? { return; }
      forall j | 0 <= j < |inodes| && j != i ensures FileReads(slots[j], blocks, inodes[j].size, was[j]) {
        assert FileReads(old(slots)[j], old(blocks), old(inodes)[j].size, was[j]);
        RowInRange(sb, old(bitmap), old(slots), j);
        FileKept(old(slots), old(blocks), slots, blocks, j, inodes[j].size);
      }
      RowInRange(sb, old(bitmap), old(slots), i);
      FileKept(old(slots), old(blocks), slots, blocks, i, |cur|);
      assert Kept(old(slots), old(blocks), slots, blocks, i, NDIRECT);
    }
  }

  ghost function FilesOf(s: Snap): (f: seq<seq<int>>)
    requires |s.slots| == |s.inodes|
    ensures |f| == |s.inodes| && forall j :: 0 <= j < |f| ==> f[j] == Contents(s.slots[j], s.blocks, s.inodes[j].size)
  {
    seq(|s.inodes|, j requires 0 <= j < |s.inodes| && |s.slots| == |s.inodes| =>
          Contents(s.slots[j], s.blocks, s.inodes[j].size))
  }

  lemma FilesRead(s: Snap, i: nat)
    requires |s.slots| == |s.inodes| && NoHolesIn(s) && i < |s.inodes|
    ensures FileReads(s.slots[i], s.blocks, |FilesOf(s)[i]|, FilesOf(s)[i]) && OthersRead(s, i, FilesOf(s))
  {
    forall j | 0 <= j < |s.inodes| ensures FileReads(s.slots[j], s.blocks, s.inodes[j].size, FilesOf(s)[j]) {
      assert NoHoles(s.slots[j], s.inodes[j].size);
    }
  }

  lemma ReachedSize(f: seq<int>, offset: nat, src: seq<int>, room: nat, r: nat)
    requires Result(f, offset, src, room, r)
    ensures |f| <= |Reached(f, offset, src, room)| && offset + r <= |Reached(f, offset, src, room)|
  {
  }

  ghost predicate NoHolesIn(s: Snap)
    requires |s.slots| == |s.inodes|
  {
    forall j {:trigger NoHoles(s.slots[j], s.inodes[j].size)} :: 0 <= j < |s.inodes| ==>
        NoHoles(s.slots[j], s.inodes[j].size)
  }

  /** Inode i keeps all but its size and addresses, and the others everything. */
  ghost predicate Resized(s: Snap, s': Snap, i: nat) {
    && i < |s.inodes| == |s'.inodes|
    && s'.inodes[i] == s.inodes[i].(size := s'.inodes[i].size, addrs := s'.inodes[i].addrs)
    && forall j :: 0 <= j < |s.inodes| && j != i ==> s'.inodes[j] == s.inodes[j]
  }

  /** writei returned r: what file i holds now, with the other files as they were, and what the log and the disk have of
      it. */
  ghost predicate WriteDone(sb: Super, s: Snap, s': Snap, i: nat, offset: nat, src: seq<int>, room: nat, r: int,
                            data: seq<nat>, maps: seq<nat>)
  {
    && i < |s.slots| == |s.inodes| == |s'.inodes| == |s'.slots| && NoHolesIn(s')
    && Result(FilesOf(s)[i], offset, src, room, r) && Resized(s, s', i)
    && FilesOf(s') == FilesOf(s)[i := After(FilesOf(s)[i], offset, src, room, r)]
    && if r < 0 then s' == s else
       && Logged(sb, s, s', Torn(s'.slots[i], offset, |src|, r))
       && (SyncedBut(sb, s.blocks, s.inodes, {i}) ==> SyncedBut(sb, s'.blocks, s'.inodes, {}))
       && Bounded(offset, |src|, |data|, |maps|) && |s'.slots[i]| == NSLOTS
       && exists lg :: s'.logged == lg + [IBlock(sb, i)] && LoggedOnly(s.logged, lg, s'.slots[i], data, maps)
  }

  /** The loop, and then the size and iupdate. */
  lemma WroteAll(sb: Super, s0: Snap, s1: Snap, s2: Snap, i: nat, offset: nat, src: seq<int>, room: nat, tot: nat,
                 data: seq<nat>, maps: seq<nat>)
    requires i < |s0.slots| == |s0.inodes| && Others(s0, s1, i) && Updated(sb, s1, s2, i) && |s2.slots| == |s2.inodes|
    requires Wrote(sb, s0, s1, i, offset, src, room, tot, data, maps, FilesOf(s0)[i], FilesOf(s0)) && NoHolesIn(s2)
    requires s2.inodes[i].size == if offset + tot > s1.inodes[i].size then offset + tot else s1.inodes[i].size
    requires s2.inodes[i] == s1.inodes[i].(size := s2.inodes[i].size)
    requires s2.inodes[i].size <= |Reached(FilesOf(s0)[i], offset, src, room)|
    requires FilesOf(s2) == FilesOf(s0)[i := Reached(FilesOf(s0)[i], offset, src, room)[..s2.inodes[i].size]]
    ensures WriteDone(sb, s0, s2, i, offset, src, room, tot, data, maps)
  {
    Persisted(sb, s0, s1, s2, i, Torn(s1.slots[i], offset, |src|, tot));
    assert LoggedOnly(s0.logged, s1.logged, s2.slots[i], data, maps);
  }

  /** The inode may have changed in memory before. */
  lemma UpdatedFrom(sb: Super, s0: Snap, s1: Snap, s2: Snap, i: nat)
    requires Updated(sb, s1, s2, i) && Shape(sb, s0.bitmap, s0.blocks, s0.inodes) && |s0.inodes| == |s1.inodes|
    requires s1 == s0.(inodes := s1.inodes) && forall j :: 0 <= j < |s0.inodes| && j != i ==>
             s1.inodes[j] == s0.inodes[j]
    ensures Updated(sb, s0, s2, i)
  {
  }

  /** iupdate changes what no file reads, but for the size of file i. */
  lemma UpdatedReads(sb: Super, s: Snap, s': Snap, i: nat, now: seq<int>, was: seq<seq<int>>)
    requires Updated(sb, s, s', i) && Owned(sb, s.bitmap, s.slots) && |s.slots| == |s.inodes|
             && s'.inodes[i].size <= |now|
    requires FileReads(s.slots[i], s.blocks, |now|, now) && OthersRead(s, i, was)
    ensures NoHolesIn(s') && FilesOf(s') == was[i := now[..s'.inodes[i].size]]
  {
    PrefixReads(s.slots[i], s.blocks, now, s'.inodes[i].size);
    var all := was[i := now[..s'.inodes[i].size]];
    forall j | 0 <= j < |s.inodes| ensures FileReads(s'.slots[j], s'.blocks, s'.inodes[j].size, all[j]) {
      if j != i { assert FileReads(s.slots[j], s.blocks, s.inodes[j].size, was[j]); }
      MetaReads(sb, s.bitmap, s.slots, s.blocks, s'.blocks, IBlock(sb, i), j, s'.inodes[j].size);
    }
  }

  // ---- the loop of writei

  /** After `tot` bytes the rounds have covered the file blocks below `cur`. */
  ghost predicate Covers(offset: nat, n: nat, tot: nat, cur: nat) {
    && (tot < n ==> cur == (offset + tot) / BSIZE) && (tot > 0 ==> cur == (offset + tot - 1) / BSIZE + 1)
    && (tot == 0 ==> cur == offset / BSIZE)
  }

  lemma CoversNext(offset: nat, n: nat, tot: nat, cur: nat)
    requires Covers(offset, n, tot, cur) && tot < n
    ensures Covers(offset, n, tot + Round(offset, n, tot), cur + 1) && offset / BSIZE <= cur
  {
  }

  lemma LastRound(offset: nat, n: nat, room: nat, tot: nat)
    requires tot < n && tot <= room
    ensures room < tot + Round(offset, n, tot) || tot + Round(offset, n, tot) == n ==>
              LastByte(offset, n, room) / BSIZE == (offset + tot) / BSIZE
    ensures (offset + tot) / BSIZE <= LastByte(offset, n, room) / BSIZE
  {
  }

  /** The slots all rounds up to the failing one ask for. */
  ghost function Asked(offset: nat, n: nat, room: nat): seq<nat> {
    if n == 0 then [] else SlotsFor(offset / BSIZE, LastByte(offset, n, room) / BSIZE + 1)
  }

  lemma AllAsked(offset: nat, n: nat, room: nat, cur: nat)
    requires Covers(offset, n, n, cur) && n <= room
    ensures SlotsFor(offset / BSIZE, cur) == Asked(offset, n, room)
  {
  }

  /** One more round; and if it is the last one, that was all. */
  lemma Onward(path: seq<Alloc>, step: seq<Alloc>, offset: nat, n: nat, room: nat, tot: nat, cur: nat, ok: bool)
      returns (all: seq<Alloc>)
    requires Covers(offset, n, tot, cur) && tot < n && tot <= room && Takes(path, SlotsFor(offset / BSIZE, cur), true)
    requires Takes(step, SlotsOf((offset + tot) / BSIZE), ok) && path[|path| - 1] == step[0]
    ensures Covers(offset, n, tot + Round(offset, n, tot), cur + 1)
    ensures ok ==> Takes(all, SlotsFor(offset / BSIZE, cur + 1), true)
    ensures ok && (room < tot + Round(offset, n, tot) || tot + Round(offset, n, tot) == n) ==>
            Takes(all, Asked(offset, n, room), true)
    ensures !ok ==> Takes(all, Asked(offset, n, room), false)
    ensures |all| > 0 && all[0] == path[0] && all[|all| - 1] == step[|step| - 1]
  {
    CoversNext(offset, n, tot, cur);
    LastRound(offset, n, room, tot);
    all := OnwardPath(path, step, offset / BSIZE, cur, LastByte(offset, n, room) / BSIZE, ok);
  }

  lemma OnwardPath(path: seq<Alloc>, step: seq<Alloc>, lo: nat, cur: nat, last: nat, ok: bool) returns (all: seq<Alloc>)
    requires lo <= cur <= last && Takes(path, SlotsFor(lo, cur), true) && Takes(step, SlotsOf(cur), ok)
             && path[|path| - 1] == step[0]
    ensures ok ==> Takes(all, SlotsFor(lo, cur + 1), true)
    ensures !ok ==> Takes(all, SlotsFor(lo, last + 1), false)
    ensures |all| > 0 && all[0] == path[0] && all[|all| - 1] == step[|step| - 1]
  {
    all := path + step[1..];
    TakesTrans(path, SlotsFor(lo, cur), step, SlotsOf(cur), ok);
    if !ok {
      var more := SlotsLonger(lo, cur + 1, last + 1);
      TakesMore(all, SlotsFor(lo, cur + 1), more);
    }
  }

  /** The loop of writei after `tot` bytes. */
  ghost predicate Looping(sb: Super, s0: Snap, s: Snap, i: nat, offset: nat, src: seq<int>, room: nat, tot: nat,
                          data: seq<nat>, maps: seq<nat>, file: seq<int>, was: seq<seq<int>>, cur: nat,
                          path: seq<Alloc>)
  {
    && Writing(sb, s0, s, i, offset, src, tot, data, maps, file, was) && tot <= room
    && Covers(offset, |src|, tot, cur) && Takes(path, SlotsFor(offset / BSIZE, cur), true)
    && path[0] == Al(s0, i) && path[|path| - 1] == Al(s, i)
  }

  /** The loop is over: r bytes, or a panic. */
  ghost predicate Looped(sb: Super, s0: Snap, s: Snap, i: nat, offset: nat, src: seq<int>, room: nat, r: Option<nat>,
                         data: seq<nat>, maps: seq<nat>, file: seq<int>, was: seq<seq<int>>, path: seq<Alloc>)
  {
    && (r.None? ==> FsOk(sb, s.bitmap, s.blocks, s.inodes, s.slots) && Others(s0, s, i))
    && (r.Some? ==> Wrote(sb, s0, s, i, offset, src, room, r.value, data, maps, file, was))
    && i < |s0.slots| && i < |s.slots| && Takes(path, Asked(offset, |src|, room), r.Some?)
    && path[0] == Al(s0, i) && path[|path| - 1] == Al(s, i)
  }

  lemma LoopStart(sb: Super, s: Snap, i: nat, offset: nat, src: seq<int>, room: nat, file: seq<int>, was: seq<seq<int>>)
    requires FsOk(sb, s.bitmap, s.blocks, s.inodes, s.slots) && i < |s.inodes| && offset <= |file|
    requires offset + |src| <= MAXFILE * BSIZE && forall k :: 0 <= k < |src| ==> 0 <= src[k] < 256
    requires FileReads(s.slots[i], s.blocks, |file|, file) && OthersRead(s, i, was)
    ensures Looping(sb, s, s, i, offset, src, room, 0, [], [], file, was, offset / BSIZE, [Al(s, i)])
  {
    WritingStart(sb, s, i, offset, src, file, was);
  }

  /** A round took the state from s1 to s2; `next` is where the next one would start. */
  ghost predicate Stepped(sb: Super, s0: Snap, s1: Snap, s2: Snap, i: nat, offset: nat, src: seq<int>, room: nat,
                          tot: nat, next: nat, data: seq<nat>, maps: seq<nat>, file: seq<int>, was: seq<seq<int>>,
                          ok: bool, path: seq<Alloc>)
  {
    && (!ok ==> FsOk(sb, s2.bitmap, s2.blocks, s2.inodes, s2.slots) && Others(s0, s2, i))
    && (ok && next <= room ==> Writing(sb, s0, s2, i, offset, src, next, data, maps, file, was))
    && (ok && next > room ==> Wrote(sb, s0, s2, i, offset, src, room, tot, data, maps, file, was))
    && i < |s1.slots| && i < |s2.slots| && Takes(path, SlotsOf((offset + tot) / BSIZE), ok)
    && path[0] == Al(s1, i) && path[|path| - 1] == Al(s2, i)
  }

  lemma LoopNext(sb: Super, s0: Snap, s1: Snap, s2: Snap, i: nat, offset: nat, src: seq<int>, room: nat, tot: nat,
                 next: nat, data: seq<nat>, maps: seq<nat>, data': seq<nat>, maps': seq<nat>, file: seq<int>,
                 was: seq<seq<int>>, cur: nat, path: seq<Alloc>, ok: bool, step: seq<Alloc>)
    returns (cur': nat, path': seq<Alloc>)
    requires Looping(sb, s0, s1, i, offset, src, room, tot, data, maps, file, was, cur, path) && tot < |src|
    requires Stepped(sb, s0, s1, s2, i, offset, src, room, tot, next, data', maps', file, was, ok, step)
    requires next == tot + Round(offset, |src|, tot)
    ensures var r := if ok then Some(tot) else None;
            if ok && next <= room
                then Looping(sb, s0, s2, i, offset, src, room, next, data', maps', file, was, cur', path')
            else Looped(sb, s0, s2, i, offset, src, room, r, data', maps', file, was, path')
  {
    cur' := cur + 1;
    path' := Onward(path, step, offset, |src|, room, tot, cur, ok);
  }

  lemma LoopEnd(sb: Super, s0: Snap, s: Snap, i: nat, offset: nat, src: seq<int>, room: nat, data: seq<nat>,
                maps: seq<nat>, file: seq<int>, was: seq<seq<int>>, cur: nat, path: seq<Alloc>)
    requires Looping(sb, s0, s, i, offset, src, room, |src|, data, maps, file, was, cur, path)
    ensures Looped(sb, s0, s, i, offset, src, room, Some(|src|), data, maps, file, was, path)
  {
    WritingWrote(sb, s0, s, i, offset, src, room, data, maps, file, was);
    AllAsked(offset, |src|, room, cur);
  }

  /** What that comes to. */
  lemma AskedOutcome(s: Snap, s': Snap, i: nat, path: seq<Alloc>, offset: nat, n: nat, room: nat, ok: bool)
    requires i < |s.slots| == |s'.slots| && Takes(path, Asked(offset, n, room), ok) && offset + n <= MAXFILE * BSIZE
    requires path[0] == Alloc(s.bitmap, s.slots[i]) && path[|path| - 1] == Alloc(s'.bitmap, s'.slots[i])
    ensures if ok then PaidFor(s, s', i, Reach(offset, n, room)) else BrokeAt(s, i, Reach(offset, n, room))
  {
    TakesOutcome(path, Asked(offset, n, room), ok);
    AskedReach(offset, n, room);
  }

  lemma AskedReach(offset: nat, n: nat, room: nat)
    requires offset + n <= MAXFILE * BSIZE
    ensures Among(Asked(offset, n, room)) == Reach(offset, n, room)
  {
    if n > 0 {
      SlotsNeeded(offset / BSIZE, LastByte(offset, n, room) / BSIZE + 1);
    } else {
      assert Among([]) == {};
    }
  }

  /** Every file but that of inode i reads as it did in `was`. */
  ghost predicate OthersRead(s: Snap, i: nat, was: seq<seq<int>>) {
    && |s.slots| == |s.inodes| == |was|
    && forall j {:trigger FileReads(s.slots[j], s.blocks, s.inodes[j].size, was[j])} ::
        0 <= j < |s.inodes| && j != i ==>
         FileReads(s.slots[j], s.blocks, s.inodes[j].size, was[j])
  }

  /** Inode i keeps all but its addresses, and the others everything. */
  ghost predicate Others(s: Snap, s': Snap, i: nat) {
    && i < |s.inodes| == |s'.inodes| && s'.inodes[i] == s.inodes[i].(addrs := s'.inodes[i].addrs)
    && (forall j :: 0 <= j < |s.inodes| && j != i ==> s'.inodes[j] == s.inodes[j])
  }

  /** A round at `off`: block `addr` is there and file i reads as `cur`; `extra` went to the log besides what bmap
      logged, and `maps` are the bitmap blocks among that. A block cut short is not logged. */
  ghost predicate Rounded(sb: Super, s: Snap, s': Snap, i: nat, off: nat, extra: seq<nat>, addr: nat, maps: seq<nat>,
                          cur: seq<int>, was: seq<seq<int>>)
  {
    && off / BSIZE < MAXFILE && i < |s.slots| == |s'.slots| && |s.slots[i]| == |s'.slots[i]| == NSLOTS
    && addr == s'.slots[i][FileSlot(off / BSIZE)]
    && FileReads(s'.slots[i], s'.blocks, |cur|, cur) && OthersRead(s', i, was)
    && Trail(sb, s, s', if extra == [] then {addr} else {})
    && (s.slots[i][FileSlot(off / BSIZE)] != 0 ==> maps == [])
    && |maps| <= 1 + (if s.slots[i][NDIRECT] == 0 && s'.slots[i][NDIRECT] != 0 then 1 else 0)
    && (s.slots[i][NDIRECT] != 0 ==> s'.slots[i][NDIRECT] == s.slots[i][NDIRECT])
    && (forall x :: x in s'.logged ==> x in s.logged || x in maps || x == addr || (x == s'.slots[i][NDIRECT] && x != 0))
  }

  lemma RoundedNext(sb: Super, s: Snap, s1: Snap, s2: Snap, i: nat, off: nat, fits: bool, addr: nat, maps: seq<nat>,
                    cur: seq<int>, cur': seq<int>, was: seq<seq<int>>)
    requires Rounded(sb, s, s1, i, off, [], addr, maps, cur, was) && Trail(sb, s, s1, {}) && s2.slots == s1.slots
    requires FileReads(s2.slots[i], s2.blocks, |cur'|, cur') && OthersRead(s2, i, was)
    requires s2.logged == s1.logged + (if fits then [addr] else []) && Trail(sb, s1, s2, if fits then {} else {addr})
    ensures Rounded(sb, s, s2, i, off, if fits then [addr] else [], addr, maps, cur', was)
  {
    TrailTrans(sb, s, s1, s2, if fits then {} else {addr});
  }

  /** What writei's loop keeps: after `tot` bytes the file reads as the splice of what was written so far. */
  ghost predicate Writing(sb: Super, s0: Snap, s: Snap, i: nat, offset: nat, src: seq<int>, tot: nat, data: seq<nat>,
                          maps: seq<nat>, file: seq<int>, was: seq<seq<int>>)
  {
    && FsOk(sb, s.bitmap, s.blocks, s.inodes, s.slots) && Others(s0, s, i)
    && i < |s0.slots| && |s0.slots[i]| == NSLOTS
    && tot <= |src| && offset <= |file| && offset + |src| <= MAXFILE * BSIZE
    && (forall k :: 0 <= k < |src| ==> 0 <= src[k] < 256)
    && FileReads(s.slots[i], s.blocks, |Splice(file, offset, src[..tot])|, Splice(file, offset, src[..tot]))
    && OthersRead(s, i, was)
    && Counted(offset, tot, |src|, |data|, |maps|, s0.slots[i][NDIRECT], s.slots[i][NDIRECT])
    && Trail(sb, s0, s, {})
    && LoggedOnly(s0.logged, s.logged, s.slots[i], data, maps)
  }

  ghost predicate LoggedOnly(lg0: seq<nat>, lg: seq<nat>, row: seq<nat>, data: seq<nat>, maps: seq<nat>)
    requires |row| == NSLOTS
  {
    forall x :: x in lg ==> x in lg0 || x in data || x in maps || (x == row[NDIRECT] && x != 0)
  }

  /** What the loop leaves, either way. */
  ghost predicate Wrote(sb: Super, s0: Snap, s: Snap, i: nat, offset: nat, src: seq<int>, room: nat, tot: nat,
                        data: seq<nat>, maps: seq<nat>, file: seq<int>, was: seq<seq<int>>)
  {
    && FsOk(sb, s.bitmap, s.blocks, s.inodes, s.slots) && Others(s0, s, i) && Result(file, offset, src, room, tot)
    && FileReads(s.slots[i], s.blocks, |Reached(file, offset, src, room)|, Reached(file, offset, src, room))
    && OthersRead(s, i, was) && Bounded(offset, |src|, |data|, |maps|)
    && Trail(sb, s0, s, Torn(s.slots[i], offset, |src|, tot))
    && LoggedOnly(s0.logged, s.logged, s.slots[i], data, maps)
  }

  lemma WritingStart(sb: Super, s: Snap, i: nat, offset: nat, src: seq<int>, file: seq<int>, was: seq<seq<int>>)
    requires FsOk(sb, s.bitmap, s.blocks, s.inodes, s.slots) && i < |s.inodes| && offset <= |file|
             && offset + |src| <= MAXFILE * BSIZE
    requires FileReads(s.slots[i], s.blocks, |file|, file) && OthersRead(s, i, was)
    requires forall k :: 0 <= k < |src| ==> 0 <= src[k] < 256
    ensures Writing(sb, s, s, i, offset, src, 0, [], [], file, was)
  {
    assert Splice(file, offset, src[..0]) == file;
  }

  lemma WritingWrote(sb: Super, s0: Snap, s: Snap, i: nat, offset: nat, src: seq<int>, room: nat, data: seq<nat>,
                     maps: seq<nat>, file: seq<int>, was: seq<seq<int>>)
    requires Writing(sb, s0, s, i, offset, src, |src|, data, maps, file, was) && |src| <= room
    ensures Wrote(sb, s0, s, i, offset, src, room, |src|, data, maps, file, was)
  {
  }

  /** A round begins at the start of a block, but for the first. */
  lemma RoundsEnd(offset: nat, n: nat, tot: nat, rounds: nat, maps: nat, ind0: nat, ind: nat)
    ensures Counted(offset, tot, n, rounds, maps, ind0, ind) && 0 < tot < n ==> (offset + tot) % BSIZE == 0
  {
  }

  /** The counts and the log after one more round. */
  lemma RoundCounts(s0: Snap, s1: Snap, s2: Snap, i: nat, offset: nat, n: nat, tot: nat, data: seq<nat>, maps: seq<nat>,
                    cur: seq<int>, addr: nat, more: seq<nat>)
    requires i < |s0.slots| && i < |s1.slots| && i < |s2.slots|
             && |s0.slots[i]| == |s1.slots[i]| == |s2.slots[i]| == NSLOTS
    requires tot < n && offset + n <= MAXFILE * BSIZE && FileReads(s1.slots[i], s1.blocks, |cur|, cur)
             && offset + tot <= |cur|
    requires Counted(offset, tot, n, |data|, |maps|, s0.slots[i][NDIRECT], s1.slots[i][NDIRECT])
    requires s1.slots[i][FileSlot((offset + tot) / BSIZE)] != 0 ==> more == []
    requires |more| <= 1 + (if s1.slots[i][NDIRECT] == 0 && s2.slots[i][NDIRECT] != 0 then 1 else 0)
    requires s1.slots[i][NDIRECT] != 0 ==> s2.slots[i][NDIRECT] == s1.slots[i][NDIRECT]
    ensures var m := Round(offset, n, tot);
      && Counted(offset, tot + m, n, |data| + 1, |maps| + |more|, s0.slots[i][NDIRECT], s2.slots[i][NDIRECT])
      && Bounded(offset, n, |data| + 1, |maps| + |more|)
  {
    FirstMapped(s1.slots[i], cur, s1.blocks, offset, tot);
    CountNext(offset, tot, n, Round(offset, n, tot), |data|, |maps|, s0.slots[i][NDIRECT], s1.slots[i][NDIRECT],
              s2.slots[i][NDIRECT],
              |more|);
  }

  lemma LoggedMore(lg0: seq<nat>, lg1: seq<nat>, lg2: seq<nat>, row1: seq<nat>, row2: seq<nat>, data: seq<nat>,
                   maps: seq<nat>, addr: nat, more: seq<nat>)
    requires |row1| == |row2| == NSLOTS && (row1[NDIRECT] != 0 ==> row2[NDIRECT] == row1[NDIRECT])
    requires LoggedOnly(lg0, lg1, row1, data, maps)
    requires forall x :: x in lg2 ==> x in lg1 || x in more || x == addr || (x == row2[NDIRECT] && x != 0)
    ensures LoggedOnly(lg0, lg2, row2, data + [addr], maps + more)
  {
  }

  lemma WritingNext(sb: Super, s0: Snap, s1: Snap, s2: Snap, i: nat, offset: nat, src: seq<int>, tot: nat, to: nat,
                    data: seq<nat>, maps: seq<nat>, file: seq<int>, was: seq<seq<int>>, addr: nat, more: seq<nat>)
    requires Writing(sb, s0, s1, i, offset, src, tot, data, maps, file, was) && tot < |src|
             && to == tot + Round(offset, |src|, tot)
    requires FsOk(sb, s2.bitmap, s2.blocks, s2.inodes, s2.slots) && Others(s1, s2, i)
    requires Rounded(sb, s1, s2, i, offset + tot, [addr], addr, more,
                     Splice(Splice(file, offset, src[..tot]), offset + tot, src[tot..to]), was)
    ensures Writing(sb, s0, s2, i, offset, src, to, data + [addr], maps + more, file, was)
  {
    RoundCounts(s0, s1, s2, i, offset, |src|, tot, data, maps, Splice(file, offset, src[..tot]), addr, more);
    LoggedMore(s0.logged, s1.logged, s2.logged, s1.slots[i], s2.slots[i], data, maps, addr, more);
    SplicedReads(s2.slots[i], s2.blocks, file, offset, src, tot, to);
    TrailTrans(sb, s0, s1, s2, {});
  }

  lemma SplicedReads(row: seq<nat>, blocks: seq<Block>, file: seq<int>, offset: nat, src: seq<int>, tot: nat, to: nat)
    requires offset <= |file| && tot <= to <= |src|
    requires var f := Splice(Splice(file, offset, src[..tot]), offset + tot, src[tot..to]);
             FileReads(row, blocks, |f|, f)
    ensures FileReads(row, blocks, |Splice(file, offset, src[..to])|, Splice(file, offset, src[..to]))
  {
    SpliceMore(file, offset, src, tot, to - tot);
  }

  lemma StopNext(sb: Super, s0: Snap, s1: Snap, s2: Snap, i: nat, offset: nat, src: seq<int>, room: nat, tot: nat,
                 data: seq<nat>, maps: seq<nat>, file: seq<int>, was: seq<seq<int>>, addr: nat, more: seq<nat>)
    requires Writing(sb, s0, s1, i, offset, src, tot, data, maps, file, was) && tot < |src|
    requires tot <= room < tot + Round(offset, |src|, tot) && FsOk(sb, s2.bitmap, s2.blocks, s2.inodes, s2.slots)
             && Others(s1, s2, i)
    requires Rounded(sb, s1, s2, i, offset + tot, [], addr, more,
                     Splice(Splice(file, offset, src[..tot]), offset + tot, src[tot..room]), was)
    ensures Wrote(sb, s0, s2, i, offset, src, room, tot, data + [addr], maps + more, file, was)
  {
    RoundsEnd(offset, |src|, tot, |data|, |maps|, s0.slots[i][NDIRECT], s1.slots[i][NDIRECT]);
    RoundCounts(s0, s1, s2, i, offset, |src|, tot, data, maps, Splice(file, offset, src[..tot]), addr, more);
    LoggedMore(s0.logged, s1.logged, s2.logged, s1.slots[i], s2.slots[i], data, maps, addr, more);
    SplicedReads(s2.slots[i], s2.blocks, file, offset, src, tot, room);
    TrailTrans(sb, s0, s1, s2, {addr});
  }

  /** A first round that does not begin a block finds it there. */
  lemma FirstMapped(row: seq<nat>, cur: seq<int>, blocks: seq<Block>, offset: nat, tot: nat)
    requires FileReads(row, blocks, |cur|, cur) && offset + tot <= |cur| && (offset + tot) / BSIZE < MAXFILE
    ensures (offset + tot) % BSIZE != 0 ==> row[FileSlot((offset + tot) / BSIZE)] != 0
  {
    if (offset + tot) % BSIZE != 0 { assert Mapped(row, (offset + tot) / BSIZE); }
  }

  // ---- what writei returns and leaves

  /** How many bytes a round takes: up to the end of the block, or of the source. */
  function Round(offset: nat, n: nat, tot: nat): (m: nat)
    requires tot < n
    ensures 0 < m <= n - tot
  {
    if n - tot < BSIZE - (offset + tot) % BSIZE then n - tot else BSIZE - (offset + tot) % BSIZE
  }

  /** A copy of n bytes to `offset` that meets an unreadable byte at `room` ends with the last whole round before it. */
  ghost predicate Cut(offset: nat, n: nat, room: nat, r: nat) {
    r <= room && r < n && room < r + Round(offset, n, r) && (r == 0 || (offset + r) % BSIZE == 0)
  }

  ghost predicate Result(f: seq<int>, offset: nat, src: seq<int>, room: nat, r: int) {
    if offset > |f| || offset + |src| > MAXFILE * BSIZE then r == -1
    else if |src| <= room then r == |src|
    else 0 <= r && Cut(offset, |src|, room, r)
  }

  /** The file afterwards: every byte that could be read is in its place, as far as the file reaches, which is up to its
      old end or that of the last whole round. */
  ghost function After(f: seq<int>, offset: nat, src: seq<int>, room: nat, r: int): seq<int>
    requires Result(f, offset, src, room, r)
  {
    if r < 0 then f else Reached(f, offset, src, room)[..if offset + r > |f| then offset + r else |f|]
  }

  ghost function Reached(f: seq<int>, offset: nat, src: seq<int>, room: nat): seq<int> {
    if offset > |f| then f else Splice(f, offset, src[..if |src| <= room then |src| else room])
  }

  /** The block of the round that was cut short. */
  ghost function Torn(row: seq<nat>, offset: nat, n: nat, r: nat): set<nat> {
    if r < n && (offset + r) / BSIZE < MAXFILE && |row| == NSLOTS then {row[FileSlot((offset + r) / BSIZE)]} else {}
  }

  /** The whole source is written when all of it can be read. */
  lemma AfterAll(f: seq<int>, offset: nat, src: seq<int>, room: nat, r: int)
    requires offset <= |f| && offset + |src| <= MAXFILE * BSIZE && Result(f, offset, src, room, r) && |src| <= room
    ensures r == |src| && After(f, offset, src, room, r) == Splice(f, offset, src)
  {
    assert src[..|src|] == src;
  }

  /** Where a copy that meets an unreadable byte at `room` ends: at the start of the block that byte would go to, or
      where it began. */
  function CutAt(offset: nat, room: nat): nat {
    if (offset + room) / BSIZE * BSIZE > offset then (offset + room) / BSIZE * BSIZE - offset else 0
  }

  lemma CutIs(offset: nat, n: nat, room: nat, r: nat)
    requires room < n
    ensures Cut(offset, n, room, r) <==> r == CutAt(offset, room)
  {
    if Cut(offset, n, room, r) {
      assert (offset + room) / BSIZE == (offset + r) / BSIZE;
    }
  }

  /** A write that was cut short leaves the file with just the bytes it reports if and only if the bytes that follow, up
      to the one it could not read, fall beyond the end of the file or change nothing. */
  lemma TornShows(f: seq<int>, offset: nat, src: seq<int>, room: nat, r: nat)
    requires Result(f, offset, src, room, r) && r < |src| && offset <= |f|
    ensures r == CutAt(offset, room)
    ensures After(f, offset, src, room, r) == Splice(f, offset, src[..r]) <==>
            forall p :: offset + CutAt(offset, room) <= p < offset + room && p < |f| ==> f[p] == src[p - offset]
  {
    CutIs(offset, |src|, room, r);
    TornBytes(f, offset, src, room, r);
  }

  lemma TornBytes(f: seq<int>, offset: nat, src: seq<int>, room: nat, r: nat)
    requires Result(f, offset, src, room, r) && r < |src| && offset <= |f|
    ensures After(f, offset, src, room, r) == Splice(f, offset, src[..r]) <==>
            forall p :: offset + r <= p < offset + room && p < |f| ==> f[p] == src[p - offset]
  {
    var a, b := After(f, offset, src, room, r), Splice(f, offset, src[..r]);
    assert |a| == |b|;
    forall p | 0 <= p < |a|
      ensures a[p] == b[p] <==> !(offset + r <= p < offset + room && p < |f|) || f[p] == src[p - offset]
    {
      TornAt(f, offset, src, room, r, p);
    }
    if !forall p :: offset + r <= p < offset + room && p < |f| ==> f[p] == src[p - offset] {
      var p :| offset + r <= p < offset + room && p < |f| && f[p] != src[p - offset];
      assert a[p] != b[p];
    }
  }

  /** Byte p of the file, and what it would be if only the first r bytes had been written. */
  lemma TornAt(f: seq<int>, offset: nat, src: seq<int>, room: nat, r: nat, p: nat)
    requires Result(f, offset, src, room, r) && r < |src| && offset <= |f| && p < |After(f, offset, src, room, r)|
    ensures |After(f, offset, src, room, r)| == |Splice(f, offset, src[..r])|
    ensures After(f, offset, src, room, r)[p] == if offset <= p < offset + room then src[p - offset] else f[p]
    ensures Splice(f, offset, src[..r])[p] == if offset <= p < offset + r then src[p - offset] else f[p]
  {
  }

  lemma PrefixReads(row: seq<nat>, blocks: seq<Block>, now: seq<int>, size: nat)
    requires FileReads(row, blocks, |now|, now) && size <= |now|
    ensures FileReads(row, blocks, size, now[..size])
  {
  }

  /** A block below the data area is part of no file. */
  lemma MetaReads(sb: Super, bitmap: seq<bool>, slots: seq<seq<nat>>, blocks: seq<Block>, blocks': seq<Block>, m: nat,
                  j: nat, size: nat)
    requires Owned(sb, bitmap, slots) && j < |slots| && 0 < m < sb.datastart && |blocks| == |blocks'|
    requires forall b :: 0 <= b < |blocks| && b != m ==> blocks'[b] == blocks[b]
    ensures Contents(slots[j], blocks', size) == Contents(slots[j], blocks, size)
  {
    forall k | 0 <= k < NSLOTS ensures slots[j][k] != m { assert slots[j][k] in slots[j]; }
  }

  lemma SetSize(sb: Super, bitmap: seq<bool>, blocks: seq<Block>, inodes: seq<Inode>, slots: seq<seq<nat>>, i: nat,
                size: nat)
    requires FsOk(sb, bitmap, blocks, inodes, slots) && i < |inodes| && size <= MAXFILE * BSIZE
    ensures FsOk(sb, bitmap, blocks, inodes[i := inodes[i].(size := size)], slots)
  {
    var inodes' := inodes[i := inodes[i].(size := size)];
    forall j | 0 <= j < |inodes| ensures RowIs(blocks, inodes'[j], slots[j]) {
      assert RowIs(blocks, inodes[j], slots[j]);
      assert Ind(blocks, inodes'[j]) == Ind(blocks, inodes[j]);
      assert Slots(inodes'[j], Ind(blocks, inodes'[j])) == Slots(inodes[j], Ind(blocks, inodes[j]));
    }
  }

  /** How many blocks a write of n bytes at `offset` may log: one data block a round, a bitmap block for each but a
      first one that is not aligned, since that one exists already, and one more for the indirect block. */
  ghost predicate Bounded(offset: nat, n: nat, rounds: nat, maps: nat) {
    && (rounds == 0 || (rounds - 1) * BSIZE < offset % BSIZE + n)
    && maps + (if offset % BSIZE != 0 && rounds > 0 then 1 else 0) <= rounds + 1
  }

  /** The same after `tot` bytes, where `ind0` and `ind` are the address of the indirect block before and now. */
  ghost predicate Counted(offset: nat, tot: nat, n: nat, rounds: nat, maps: nat, ind0: nat, ind: nat) {
    && (rounds == 0 ==> tot == 0)
    && (rounds > 0 ==> (rounds - 1) * BSIZE < offset % BSIZE + tot)
    && (rounds > 0 && tot < n ==> offset % BSIZE + tot == rounds * BSIZE)
    && maps + (if offset % BSIZE != 0 && rounds > 0 then 1 else 0) <=
       rounds + (if ind0 == 0 && ind != 0 then 1 else 0)
    && (ind0 != 0 ==> ind == ind0)
  }

  lemma CountNext(offset: nat, tot: nat, n: nat, m: nat, rounds: nat, maps: nat, ind0: nat, ind: nat, ind': nat,
                  more: nat)
    requires Counted(offset, tot, n, rounds, maps, ind0, ind) && tot < n
    requires var gap := BSIZE - (offset + tot) % BSIZE; m == if n - tot < gap then n - tot else gap
    requires more <= 1 + (if ind == 0 && ind' != 0 then 1 else 0) && (ind != 0 ==> ind' == ind)
    requires rounds == 0 && offset % BSIZE != 0 ==> more == 0
    ensures Counted(offset, tot + m, n, rounds + 1, maps + more, ind0, ind')
    ensures Bounded(offset, n, rounds + 1, maps + more)
  {
  }

  ghost predicate FileReads(row: seq<nat>, blocks: seq<Block>, size: nat, file: seq<int>) {
    NoHoles(row, size) && Contents(row, blocks, size) == file
  }

  lemma RowInRange(sb: Super, bitmap: seq<bool>, slots: seq<seq<nat>>, i: nat)
    requires Owned(sb, bitmap, slots) && i < |slots|
    ensures forall bn :: 0 <= bn < MAXFILE ==> slots[i][FileSlot(bn)] < sb.size
  {
    forall bn | 0 <= bn < MAXFILE ensures slots[i][FileSlot(bn)] < sb.size {
      assert slots[i][FileSlot(bn)] in slots[i];
    }
  }

  function Patched(b: Block, at: nat, piece: seq<int>): (nb: Block)
    requires b.Valid() && at + |piece| <= BSIZE && forall k :: 0 <= k < |piece| ==> 0 <= piece[k] < 256
    ensures nb.Valid()
  {
    Block(b.bytes[..at] + piece + b.bytes[at + |piece|..])
  }

  lemma PatchedFile(row: seq<nat>, blocks: seq<Block>, addr: nat, off: nat, piece: seq<int>, cur: seq<int>)
    requires |row| == NSLOTS && off / BSIZE < MAXFILE && 0 < addr == row[FileSlot(off / BSIZE)] < |blocks|
             && blocks[addr].Valid()
    requires 0 < |piece| <= BSIZE - off % BSIZE && forall k :: 0 <= k < |piece| ==> 0 <= piece[k] < 256
    requires forall k :: 0 <= k < NSLOTS && k != FileSlot(off / BSIZE) ==> row[k] != addr
    requires off <= |cur| && NoHoles(row, |cur|) && Contents(row, blocks, |cur|) == cur
    ensures NoHoles(row, |Splice(cur, off, piece)|)
    ensures Contents(row, blocks[addr := Patched(blocks[addr], off % BSIZE, piece)], |Splice(cur, off, piece)|) ==
            Splice(cur, off, piece)
  {
    var blocks' := blocks[addr := Patched(blocks[addr], off % BSIZE, piece)];
    var want := Splice(cur, off, piece);
    var o := off % BSIZE;
    forall pos | 0 <= pos < |want| ensures ByteAt(row, blocks', pos) == want[pos] {
      if off <= pos < off + |piece| {
        assert pos / BSIZE == off / BSIZE && pos % BSIZE == o + (pos - off);
        assert want[pos] == piece[pos - off];
      } else {
        assert pos < |cur| && want[pos] == cur[pos] == ByteAt(row, blocks, pos);
        if pos / BSIZE == off / BSIZE {
          assert pos % BSIZE < o || pos % BSIZE >= o + |piece|;
        }
      }
    }
    forall bn | 0 <= bn < MAXFILE && bn * BSIZE < |want| ensures Mapped(row, bn) {
      assert bn * BSIZE < |cur| || bn == off / BSIZE;
    }
  }

  lemma OtherFile(row: seq<nat>, blocks: seq<Block>, addr: nat, nb: Block, size: nat)
    requires addr < |blocks| && |row| == NSLOTS && forall k :: 0 <= k < NSLOTS ==> row[k] != addr
    ensures Contents(row, blocks[addr := nb], size) == Contents(row, blocks, size)
  {
  }

  /** Bytes of one block are consecutive bytes of the file. */
  lemma ChunkIs(row: seq<nat>, blocks: seq<Block>, size: nat, off: nat, m: nat, addr: nat)
    requires |row| == NSLOTS && off + m <= size <= MAXFILE * BSIZE && 0 < m <= BSIZE - off % BSIZE
    requires addr == row[FileSlot(off / BSIZE)] && addr < |blocks| && blocks[addr].Valid()
    ensures blocks[addr].bytes[off % BSIZE..off % BSIZE + m] == Contents(row, blocks, size)[off..off + m]
  {
    var a := blocks[addr].bytes[off % BSIZE..off % BSIZE + m];
    var b := Contents(row, blocks, size)[off..off + m];
    forall k | 0 <= k < m ensures a[k] == b[k] {
      assert (off + k) / BSIZE == off / BSIZE && (off + k) % BSIZE == off % BSIZE + k;
    }
  }

  lemma SliceMore(s: seq<int>, a: nat, b: nat, m: nat)
    requires a <= b <= b + m <= |s|
    ensures s[a..b] + s[b..b + m] == s[a..b + m]
  {
  }

  /** s with `piece` over its bytes from `off` on, longer if need be. */
  function Splice(s: seq<int>, off: nat, piece: seq<int>): (r: seq<int>)
    requires off <= |s|
    ensures |r| == if off + |piece| > |s| then off + |piece| else |s|
  {
    s[..off] + piece + if off + |piece| > |s| then [] else s[off + |piece|..]
  }

  lemma SpliceIs(s: seq<int>, off: nat, piece: seq<int>, k: nat)
    requires off <= |s| && (k < |s| || k < off + |piece|)
    ensures Splice(s, off, piece)[k] == if off <= k < off + |piece| then piece[k - off] else s[k]
  {
  }

  lemma SpliceMore(s: seq<int>, off: nat, src: seq<int>, tot: nat, m: nat)
    requires off <= |s| && tot + m <= |src|
    ensures Splice(Splice(s, off, src[..tot]), off + tot, src[tot..tot + m]) == Splice(s, off, src[..tot + m])
  {
    assert src[..tot] + src[tot..tot + m] == src[..tot + m];
  }

  /** A file whose blocks and their contents are kept reads the same. */
  lemma FileKept(s: seq<seq<nat>>, blocks: seq<Block>, s': seq<seq<nat>>, blocks': seq<Block>, i: nat, size: nat)
    requires Grown(s, blocks, s', blocks') && i < |s| && NoHoles(s[i], size)
    requires forall bn :: 0 <= bn < MAXFILE ==> s[i][FileSlot(bn)] < |blocks|
    ensures NoHoles(s'[i], size)
    ensures Contents(s'[i], blocks', size) == Contents(s[i], blocks, size)
  {
    forall bn | 0 <= bn < MAXFILE && bn * BSIZE < size
      ensures Mapped(s'[i], bn) && s'[i][FileSlot(bn)] == s[i][FileSlot(bn)]
      ensures blocks'[s[i][FileSlot(bn)]] == blocks[s[i][FileSlot(bn)]]
    {
      assert Mapped(s[i], bn) && Kept(s, blocks, s', blocks', i, FileSlot(bn));
    }
    forall pos | 0 <= pos < size ensures ByteAt(s'[i], blocks', pos) == ByteAt(s[i], blocks, pos) {
      assert (pos / BSIZE) * BSIZE < size;
    }
  }

  /** Writing file block bn of inode i changes no other block of any file, and no indirect block. */
  lemma WriteElsewhere(sb: Super, bitmap: seq<bool>, blocks: seq<Block>, inodes: seq<Inode>, slots: seq<seq<nat>>,
                       i: nat, bn: nat, nb: Block)
    requires FsOk(sb, bitmap, blocks, inodes, slots) && i < |inodes| && bn < MAXFILE && nb.Valid()
    requires slots[i][FileSlot(bn)] != 0
    ensures slots[i][FileSlot(bn)] < |blocks|
    ensures FsOk(sb, bitmap, blocks[slots[i][FileSlot(bn)] := nb], inodes, slots)
    ensures forall j, k :: 0 <= j < |slots| && 0 <= k < NSLOTS && (j != i || k != FileSlot(bn)) ==>
              slots[j][k] != slots[i][FileSlot(bn)]
  {
    var a := slots[i][FileSlot(bn)];
    assert a in slots[i];
    forall j, k | 0 <= j < |slots| && 0 <= k < NSLOTS && (j != i || k != FileSlot(bn)) ensures slots[j][k] != a {
      assert slots[j][k] in slots[j];
    }
    forall j | 0 <= j < |inodes| ensures RowIs(blocks[a := nb], inodes[j], slots[j]) {
      assert RowIs(blocks, inodes[j], slots[j]);
      assert slots[j][NDIRECT] == inodes[j].addrs[NDIRECT] && slots[j][NDIRECT] != a;
      assert Ind(blocks[a := nb], inodes[j]) == Ind(blocks, inodes[j]);
    }
  }
}
