/** Blocks, inodes and block ownership of the file system (kernel/fs.h, kernel/fs.c). */
module FsLayout {
  import opened Params

  const NDIRECT: nat := 12
  const NINDIRECT: nat := 256
  const MAXFILE: nat := NDIRECT + NINDIRECT
  const BPB: nat := 8192
  /** The slots of an inode that can name a block: 12 direct, the indirect block, and its 256 entries. */
  const NSLOTS: nat := NDIRECT + 1 + NINDIRECT

  /** Entries, bits and i-nodes of a block: of four bytes, of one bit and of 64 bytes. */
  lemma PerBlock()
    ensures NINDIRECT * 4 == BSIZE && BPB == BSIZE * 8 && IPB * 64 == BSIZE
  {
  }

  /** A block of BSIZE bytes. */
  datatype Block = Block(bytes: seq<int>) {
    predicate Valid() {
      |bytes| == BSIZE && forall i :: 0 <= i < BSIZE ==> 0 <= bytes[i] < 256
    }
  }

  function ZeroBlock(): (b: Block)
    ensures b.Valid() && forall i :: 0 <= i < BSIZE ==> b.bytes[i] == 0
  {
    Block(seq(BSIZE, i => 0))
  }

  /** An inode: four signed 16-bit fields, the size, twelve direct addresses and the indirect one. */
  datatype Inode = Inode(typ: int, major: int, minor: int, nlink: int, size: nat, addrs: seq<nat>) {
    ghost predicate Shorts() {
      -0x8000 <= typ < 0x8000 && -0x8000 <= major < 0x8000 && -0x8000 <= minor < 0x8000 && -0x8000 <= nlink < 0x8000
    }

    ghost predicate Valid() {
      && Shorts() && size < 0x1_0000_0000 && |addrs| == NDIRECT + 1
      && forall k :: 0 <= k < |addrs| ==> addrs[k] < 0x1_0000_0000
    }

    /** What itrunc leaves of it. */
    function Emptied(): (d: Inode)
      ensures d.typ == typ && d.major == major && d.minor == minor && d.nlink == nlink && d.size == 0
      ensures |d.addrs| == NDIRECT + 1 && forall k :: 0 <= k <= NDIRECT ==> d.addrs[k] == 0
    {
      this.(size := 0, addrs := seq(NDIRECT + 1, k => 0))
    }
  }

  /** The superblock: the boot block and others, inode blocks, then bitmap blocks, then data. */
  datatype Super = Super(size: nat, inodestart: nat, bmapstart: nat, datastart: nat) {
    ghost predicate Valid() {
      0 < inodestart < bmapstart && bmapstart + size / BPB < datastart <= size
    }
  }

  // ---- the words of an indirect block, little endian

  function Word(b: Block, j: nat): nat
    requires b.Valid() && j < NINDIRECT
  {
    b.bytes[4 * j] + 0x100 * b.bytes[4 * j + 1] + 0x1_0000 * b.bytes[4 * j + 2] + 0x100_0000 * b.bytes[4 * j + 3]
  }

  function SetWord(b: Block, j: nat, v: nat): Block
    requires b.Valid() && j < NINDIRECT
  {
    Block(b.bytes[4 * j := v % 0x100][4 * j + 1 := v / 0x100 % 0x100]
          [4 * j + 2 := v / 0x1_0000 % 0x100][4 * j + 3 := v / 0x100_0000 % 0x100])
  }

  lemma WordSet(b: Block, j: nat, v: nat)
    requires b.Valid() && j < NINDIRECT && v < 0x1_0000_0000
    ensures SetWord(b, j, v).Valid()
    ensures Word(SetWord(b, j, v), j) == v
    ensures forall i :: 0 <= i < NINDIRECT && i != j ==> Word(SetWord(b, j, v), i) == Word(b, i)
  {
    var s := SetWord(b, j, v).bytes;
    assert s[4 * j] == v % 0x100 && s[4 * j + 1] == v / 0x100 % 0x100;
    assert s[4 * j + 2] == v / 0x1_0000 % 0x100 && s[4 * j + 3] == v / 0x100_0000 % 0x100;
    forall h | 0 <= h < BSIZE && (h < 4 * j || h > 4 * j + 3) ensures s[h] == b.bytes[h] {
    }
    Digits(v);
  }

  lemma Digits(v: nat)
    requires v < 0x1_0000_0000
    ensures v == v % 0x100 + 0x100 * (v / 0x100 % 0x100) + 0x1_0000 * (v / 0x1_0000 % 0x100)
                 + 0x100_0000 * (v / 0x100_0000 % 0x100)
  {
  }

  // ---- inodes on disk, sixteen to a block and sixteen words each

  const IPB: nat := 16

  /** The two's complement reading of 16 bits, and its inverse. */
  function Short(u: nat): int {
    if u < 0x8000 then u else u - 0x1_0000
  }

  function Pair(lo: int, hi: int): nat {
    lo % 0x1_0000 + 0x1_0000 * (hi % 0x1_0000)
  }

  function DinodeWord(d: Inode, k: nat): nat
    requires |d.addrs| == NDIRECT + 1 && k < 16
  {
    if k == 0 then Pair(d.typ, d.major) else if k == 1 then Pair(d.minor, d.nlink) else if k == 2 then d.size
        else d.addrs[k - 3]
  }

  /** Word k of the inode in place `slot`. */
  function WordAt(b: Block, slot: nat, k: nat): nat
    requires b.Valid() && slot < IPB && k < 16
  {
    Word(b, 16 * slot + k)
  }

  function LoadAddrs(b: Block, slot: nat): (s: seq<nat>)
    requires b.Valid() && slot < IPB
    ensures |s| == NDIRECT + 1 && forall k :: 0 <= k <= NDIRECT ==> s[k] == WordAt(b, slot, 3 + k)
  {
    seq(NDIRECT + 1, k requires 0 <= k <= NDIRECT => WordAt(b, slot, 3 + k))
  }

  /** The inode in place `slot` of an inode block, as ilock reads it. */
  function LoadDinode(b: Block, slot: nat): Inode
    requires b.Valid() && slot < IPB
  {
    var w0, w1 := WordAt(b, slot, 0), WordAt(b, slot, 1);
    Inode(Short(w0 % 0x1_0000), Short(w0 / 0x1_0000), Short(w1 % 0x1_0000), Short(w1 / 0x1_0000),
          WordAt(b, slot, 2), LoadAddrs(b, slot))
  }

  /** The block once the first n words of d are stored in place `slot`. */
  function StoreWords(b: Block, slot: nat, d: Inode, n: nat): (r: Block)
    requires b.Valid() && slot < IPB && d.Valid() && n <= 16
    ensures r.Valid()
    ensures forall j :: 0 <= j < NINDIRECT ==>
              Word(r, j) == if 16 * slot <= j < 16 * slot + n then DinodeWord(d, j - 16 * slot) else Word(b, j)
  {
    if n == 0 then b else
    var r := StoreWords(b, slot, d, n - 1);
    WordSet(r, 16 * slot + n - 1, DinodeWord(d, n - 1));
    SetWord(r, 16 * slot + n - 1, DinodeWord(d, n - 1))
  }

  function StoreDinode(b: Block, slot: nat, d: Inode): (r: Block)
    requires b.Valid() && slot < IPB && d.Valid()
    ensures r.Valid()
  {
    StoreWords(b, slot, d, 16)
  }

  /** What iupdate stores, ilock loads, and the fifteen other inodes of the block stay. */
  lemma DinodeRoundTrip(b: Block, slot: nat, d: Inode)
    requires b.Valid() && slot < IPB && d.Valid()
    ensures LoadDinode(StoreDinode(b, slot, d), slot) == d
    ensures forall s :: 0 <= s < IPB && s != slot ==> LoadDinode(StoreDinode(b, slot, d), s) == LoadDinode(b, s)
  {
    var r := StoreDinode(b, slot, d);
    assert WordAt(r, slot, 0) == Pair(d.typ, d.major) && WordAt(r, slot, 1) == Pair(d.minor, d.nlink);
    ShortPair(d.typ, d.major);
    ShortPair(d.minor, d.nlink);
    assert LoadDinode(r, slot).addrs == d.addrs;
    forall s | 0 <= s < IPB && s != slot ensures LoadDinode(r, s) == LoadDinode(b, s) {
      assert forall k :: 0 <= k < 16 ==> WordAt(r, s, k) == WordAt(b, s, k);
      assert LoadDinode(r, s).addrs == LoadDinode(b, s).addrs;
    }
  }

  // ---- the same as bytes

  /** The low n bytes of a number, low byte first; of a negative one, in two's complement. */
  function Le(v: int, n: nat): (s: seq<int>)
    ensures |s| == n
    decreases n
  {
    if n == 0 then [] else [v % 0x100] + Le(v / 0x100, n - 1)
  }

  function Le32(v: nat): (s: seq<int>)
    ensures |s| == 4
  {
    Le(v, 4)
  }

  /** The texts of the words, one after the other. */
  function Texts(f: nat -> seq<int>, ws: seq<nat>): seq<int> {
    if ws == [] then [] else Texts(f, ws[..|ws| - 1]) + f(ws[|ws| - 1])
  }

  /** struct dinode: four shorts, the size and the addresses. */
  function DiskInode(d: Inode): seq<int> {
    Fixed(d) + Texts(Le32, d.addrs)
  }

  function Fixed(d: Inode): seq<int> {
    Le(d.typ, 2) + Le(d.major, 2) + Le(d.minor, 2) + Le(d.nlink, 2) + Le(d.size, 4)
  }

  lemma Le4(v: int)
    ensures Le(v, 4) == [v % 0x100, v / 0x100 % 0x100, v / 0x100 / 0x100 % 0x100, v / 0x100 / 0x100 / 0x100 % 0x100]
  {
    var a, b, c := v / 0x100, v / 0x100 / 0x100, v / 0x100 / 0x100 / 0x100;
    assert Le(c, 1) == [c % 0x100];
    assert Le(b, 2) == [b % 0x100, c % 0x100];
    assert Le(a, 3) == [a % 0x100, b % 0x100, c % 0x100];
  }

  lemma Le2(v: int)
    ensures Le(v, 2) == [v % 0x100, v / 0x100 % 0x100]
  {
    assert Le(v / 0x100, 1) == [v / 0x100 % 0x100];
  }

  /** The bytes of a word are the digits of its value. */
  lemma WordBytes(b: Block, j: nat)
    requires b.Valid() && j < NINDIRECT
    ensures b.bytes[4 * j..4 * j + 4] == Le(Word(b, j), 4)
  {
    var s := b.bytes;
    Le4(Word(b, j));
    FourDigits(s[4 * j], s[4 * j + 1], s[4 * j + 2], s[4 * j + 3], Word(b, j));
  }

  lemma FourDigits(x: int, y: int, z: int, w: int, v: nat)
    requires 0 <= x < 0x100 && 0 <= y < 0x100 && 0 <= z < 0x100 && 0 <= w < 0x100
    requires v == x + 0x100 * y + 0x1_0000 * z + 0x100_0000 * w
    ensures v % 0x100 == x && v / 0x100 % 0x100 == y && v / 0x100 / 0x100 % 0x100 == z
    ensures v / 0x100 / 0x100 / 0x100 % 0x100 == w
  {
    assert v / 0x100 == y + 0x100 * (z + 0x100 * w);
    assert v / 0x100 / 0x100 == z + 0x100 * w;
  }

  lemma PairBytes(lo: int, hi: int)
    ensures Le(Pair(lo, hi), 4) == Le(lo, 2) + Le(hi, 2)
  {
    Le4(Pair(lo, hi));
    Le2(lo);
    Le2(hi);
    var x, y := lo % 0x1_0000, hi % 0x1_0000;
    LowHalf(lo);
    LowHalf(hi);
    FourDigits(x % 0x100, x / 0x100, y % 0x100, y / 0x100, Pair(lo, hi));
  }

  lemma LowHalf(v: int)
    ensures v % 0x1_0000 % 0x100 == v % 0x100 && v % 0x1_0000 / 0x100 == v / 0x100 % 0x100
  {
    var q := v / 0x1_0000;
    assert v == 0x100 * (0x100 * q + v % 0x1_0000 / 0x100) + v % 0x1_0000 % 0x100;
    assert v / 0x100 == 0x100 * q + v % 0x1_0000 / 0x100;
  }

  lemma {:induction false} TextsBoth(f: nat -> seq<int>, a: seq<nat>, b: seq<nat>)
    ensures Texts(f, a + b) == Texts(f, a) + Texts(f, b)
  {
    if b == [] {
      assert a + b == a;
    } else {
      var c, x := b[..|b| - 1], b[|b| - 1];
      assert (a + b)[..|a + b| - 1] == a + c;
      TextsBoth(f, a, c);
    }
  }

  function DinodeWords(d: Inode): (s: seq<nat>)
    requires |d.addrs| == NDIRECT + 1
    ensures |s| == 16 && forall k :: 0 <= k < 16 ==> s[k] == DinodeWord(d, k)
  {
    [Pair(d.typ, d.major), Pair(d.minor, d.nlink), d.size] + d.addrs
  }

  lemma FixedText(d: Inode)
    requires |d.addrs| == NDIRECT + 1
    ensures Texts(Le32, DinodeWords(d)) == DiskInode(d)
  {
    var a, b, c := Pair(d.typ, d.major), Pair(d.minor, d.nlink), d.size;
    TextsBoth(Le32, [a, b, c], d.addrs);
    ThreeTexts(Le32, a, b, c);
    PairBytes(d.typ, d.major);
    PairBytes(d.minor, d.nlink);
  }

  lemma ThreeTexts(f: nat -> seq<int>, a: nat, b: nat, c: nat)
    ensures Texts(f, [a, b, c]) == f(a) + f(b) + f(c)
  {
    assert Texts(f, [a]) == Texts(f, []) + f(a) == f(a);
    TextsBoth(f, [a], [b]);
    TextsBoth(f, [a, b], [c]);
    assert Texts(f, [b]) == f(b) && Texts(f, [c]) == f(c);
    assert [a] + [b] == [a, b] && [a, b] + [c] == [a, b, c];
  }

  /** Words whose texts follow one another. */
  lemma {:induction false} TextsAt(f: nat -> seq<int>, s: seq<int>, from: nat, ws: seq<nat>)
    requires 4 * (from + |ws|) <= |s|
    requires forall k :: from <= k < from + |ws| ==> s[4 * k..4 * k + 4] == f(ws[k - from])
    ensures s[4 * from..4 * (from + |ws|)] == Texts(f, ws)
  {
    if ws != [] {
      var n := |ws| - 1;
      TextsAt(f, s, from, ws[..n]);
      var k := from + n;
      assert s[4 * k..4 * k + 4] == f(ws[n]);
      assert s[4 * from..4 * k + 4] == s[4 * from..4 * k] + s[4 * k..4 * k + 4];
    }
  }

  /** iupdate puts the 64 bytes of the inode in their place, and changes no other byte of the block. */
  lemma DinodeBytes(b: Block, slot: nat, d: Inode)
    requires b.Valid() && slot < IPB && d.Valid()
    ensures StoreDinode(b, slot, d).bytes[64 * slot..64 * slot + 64] == DiskInode(d)
    ensures forall h :: 0 <= h < BSIZE && !(64 * slot <= h < 64 * slot + 64) ==>
              StoreDinode(b, slot, d).bytes[h] == b.bytes[h]
  {
    var r := StoreDinode(b, slot, d);
    OwnBytes(r, slot, d);
    forall h | 0 <= h < BSIZE && !(64 * slot <= h < 64 * slot + 64) ensures r.bytes[h] == b.bytes[h] {
      OtherByte(b, r, h);
    }
  }

  lemma OwnBytes(r: Block, slot: nat, d: Inode)
    requires r.Valid() && slot < IPB && |d.addrs| == NDIRECT + 1
    requires forall k :: 0 <= k < 16 ==> Word(r, 16 * slot + k) == DinodeWord(d, k)
    ensures r.bytes[64 * slot..64 * slot + 64] == DiskInode(d)
  {
    var ws := DinodeWords(d);
    forall k | 16 * slot <= k < 16 * slot + 16 ensures r.bytes[4 * k..4 * k + 4] == Le32(ws[k - 16 * slot]) {
      WordText(r, k, ws[k - 16 * slot]);
    }
    TextsAt(Le32, r.bytes, 16 * slot, ws);
    FixedText(d);
  }

  lemma WordText(r: Block, k: nat, w: nat)
    requires r.Valid() && k < NINDIRECT && Word(r, k) == w
    ensures r.bytes[4 * k..4 * k + 4] == Le32(w)
  {
    WordBytes(r, k);
  }

  lemma OtherByte(b: Block, r: Block, h: nat)
    requires b.Valid() && r.Valid() && h < BSIZE && Word(r, h / 4) == Word(b, h / 4)
    ensures r.bytes[h] == b.bytes[h]
  {
    WordBytes(b, h / 4);
    WordBytes(r, h / 4);
    assert b.bytes[h] == b.bytes[4 * (h / 4)..4 * (h / 4) + 4][h % 4];
    assert r.bytes[h] == r.bytes[4 * (h / 4)..4 * (h / 4) + 4][h % 4];
  }

  lemma ShortPair(lo: int, hi: int)
    requires -0x8000 <= lo < 0x8000 && -0x8000 <= hi < 0x8000
    ensures Pair(lo, hi) < 0x1_0000_0000
    ensures Short(Pair(lo, hi) % 0x1_0000) == lo && Short(Pair(lo, hi) / 0x1_0000) == hi
  {
    assert lo % 0x1_0000 == if lo < 0 then lo + 0x1_0000 else lo;
    assert hi % 0x1_0000 == if hi < 0 then hi + 0x1_0000 else hi;
  }

  // ---- the blocks an inode names

  /** Slot k of an inode whose indirect block, if it has one, is `ind`. */
  function Slot(ino: Inode, ind: Block, k: nat): nat
    requires |ino.addrs| == NDIRECT + 1 && ind.Valid() && k < NSLOTS
  {
    if k <= NDIRECT then ino.addrs[k]
    else if ino.addrs[NDIRECT] == 0 then 0 else Word(ind, k - NDIRECT - 1)
  }

  function Slots(ino: Inode, ind: Block): (s: seq<nat>)
    requires |ino.addrs| == NDIRECT + 1 && ind.Valid()
    ensures |s| == NSLOTS && forall k :: 0 <= k < NSLOTS ==> s[k] == Slot(ino, ind, k)
  {
    seq(NSLOTS, k requires 0 <= k < NSLOTS => Slot(ino, ind, k))
  }

  /** The slot that names file block bn. */
  function FileSlot(bn: nat): nat {
    if bn < NDIRECT then bn else bn + 1
  }

  // ---- ownership: slots[i] are the slots of inode i

  ghost predicate Names(slots: seq<seq<nat>>, b: nat) {
    exists i :: 0 <= i < |slots| && b in slots[i]
  }

  /** No block occurs twice among the slots of one inode. */
  ghost predicate Once(row: seq<nat>) {
    forall k, k' :: 0 <= k < k' < |row| && row[k] != 0 ==> row[k] != row[k']
  }

  /** A bit of the data area is set exactly when one slot, and only one, names the block. */
  ghost predicate Owned(sb: Super, bitmap: seq<bool>, slots: seq<seq<nat>>) {
    && |bitmap| == sb.size && 0 < sb.datastart <= sb.size
    && (forall b :: 0 <= b < sb.datastart ==> bitmap[b])
    && (forall i :: 0 <= i < |slots| ==> |slots[i]| == NSLOTS && Once(slots[i]))
    && (forall i, b {:trigger b in slots[i]} :: 0 <= i < |slots| && b in slots[i] && b != 0 ==>
          sb.datastart <= b < sb.size && bitmap[b])
    && (forall i, i', b {:trigger b in slots[i], b in slots[i']} ::
          0 <= i < |slots| && 0 <= i' < |slots| && i != i' && b in slots[i] && b != 0 ==> b !in slots[i'])
    && (forall b {:trigger Names(slots, b)} :: sb.datastart <= b < sb.size && bitmap[b] ==> Names(slots, b))
  }

  function SetSlot(slots: seq<seq<nat>>, i: nat, k: nat, b: nat): seq<seq<nat>>
    requires i < |slots| && k < |slots[i]|
  {
    var row: seq<nat> := slots[i][k := b];
    slots[i := row]
  }

  /** Row i changes in one slot, from or to 0, and everything else about it stays. */
  lemma SetSlotFacts(slots: seq<seq<nat>>, i: nat, k: nat, b: nat)
    requires i < |slots| && k < |slots[i]| && Once(slots[i])
    requires b == 0 || (slots[i][k] == 0 && b !in slots[i])
    ensures var row := SetSlot(slots, i, k, b)[i];
      && Once(row) && |row| == |slots[i]|
      && (forall c :: c != 0 && c in row ==> c == b || (c in slots[i] && c != slots[i][k]))
      && (forall c :: c in slots[i] && c != slots[i][k] ==> c in row) && b in row
  {
    var row := SetSlot(slots, i, k, b)[i];
    assert row[k] == b;
    forall c | c in slots[i] && c != slots[i][k] ensures c in row {
      var h :| 0 <= h < |row| && slots[i][h] == c;
      assert row[h] == c;
    }
  }

  /** Giving a free block to an empty slot. */
  lemma AllocOwned(sb: Super, bitmap: seq<bool>, slots: seq<seq<nat>>, i: nat, k: nat, b: nat)
    requires Owned(sb, bitmap, slots) && i < |slots| && k < NSLOTS && slots[i][k] == 0
    requires b < sb.size && !bitmap[b]
    ensures Owned(sb, bitmap[b := true], SetSlot(slots, i, k, b)) && sb.datastart <= b
  {
    var s' := SetSlot(slots, i, k, b);
    SetSlotFacts(slots, i, k, b);
    forall c | sb.datastart <= c < sb.size && bitmap[b := true][c] ensures Names(s', c) {
      if c == b {
        assert b in s'[i];
      } else {
        assert Names(slots, c);
        var i' :| 0 <= i' < |slots| && c in slots[i'];
        assert c in s'[i'];
      }
    }
  }

  /** Taking a block back from the slot that names it. */
  lemma FreeOwned(sb: Super, bitmap: seq<bool>, slots: seq<seq<nat>>, i: nat, k: nat)
    requires Owned(sb, bitmap, slots) && i < |slots| && k < NSLOTS && slots[i][k] != 0
    ensures slots[i][k] < sb.size && bitmap[slots[i][k]]
    ensures Owned(sb, bitmap[slots[i][k] := false], SetSlot(slots, i, k, 0))
  {
    var s' := SetSlot(slots, i, k, 0);
    var gone := slots[i][k];
    SetSlotFacts(slots, i, k, 0);
    assert gone in slots[i];
    assert gone !in s'[i];
    forall c | sb.datastart <= c < sb.size && bitmap[gone := false][c] ensures Names(s', c) {
      assert Names(slots, c);
      var i' :| 0 <= i' < |slots| && c in slots[i'];
      assert c in s'[i'];
    }
  }
}
