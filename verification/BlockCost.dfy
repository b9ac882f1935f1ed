/** How many free blocks it takes to write a range of a file: the counterpart of balloc's panic. */
module BlockCost {
  import opened Params
  import opened FsLayout

  ghost function FreeBits(bitmap: seq<bool>): set<nat> {
    set b: nat | b < |bitmap| && !bitmap[b]
  }

  /** The slots of an inode that name no block. */
  ghost function Empty(row: seq<nat>): set<nat> {
    set k: nat | k < |row| && row[k] == 0
  }

  /** Slot k is needed for one of the file blocks lo to hi: its own, or that of the indirect block. */
  predicate NeededAt(lo: nat, hi: nat, k: nat) {
    if k < NDIRECT then lo <= k < hi else if k == NDIRECT then lo < hi && NDIRECT < hi else lo <= k - 1 < hi
  }

  ghost function Needed(lo: nat, hi: nat): set<nat> {
    set k: nat | k < NSLOTS && NeededAt(lo, hi, k)
  }

  /** Those of `need` that were empty, and no others, got a block, one free block each. */
  ghost predicate Paid(bitmap: seq<bool>, row: seq<nat>, bitmap': seq<bool>, row': seq<nat>, need: set<nat>) {
    Empty(row') == Empty(row) - need && |FreeBits(bitmap')| + |Empty(row) * need| == |FreeBits(bitmap)|
  }

  /** There are fewer free blocks than empty slots in `need`. */
  ghost predicate Broke(bitmap: seq<bool>, row: seq<nat>, need: set<nat>) {
    |FreeBits(bitmap)| < |Empty(row) * need|
  }

  lemma PaidNotBroke(bitmap: seq<bool>, row: seq<nat>, bitmap': seq<bool>, row': seq<nat>, need: set<nat>)
    requires Paid(bitmap, row, bitmap', row', need)
    ensures !Broke(bitmap, row, need)
  {
  }

  lemma PaidNothing(bitmap: seq<bool>, row: seq<nat>, need: set<nat>)
    requires Empty(row) * need == {}
    ensures Paid(bitmap, row, bitmap, row, need)
  {
    assert forall k :: k in Empty(row) ==> k !in Empty(row) * need ==> k !in need;
  }

  lemma SplitNeed(e: set<nat>, n1: set<nat>, n2: set<nat>)
    ensures |e * (n1 + n2)| == |e * n1| + |(e - n1) * n2|
  {
    assert e * (n1 + n2) == e * n1 + (e - n1) * n2;
    assert (e * n1) !! ((e - n1) * n2);
  }

  lemma PaidTrans(b0: seq<bool>, r0: seq<nat>, b1: seq<bool>, r1: seq<nat>, b2: seq<bool>, r2: seq<nat>, n1: set<nat>,
                  n2: set<nat>, all: set<nat>)
    requires Paid(b0, r0, b1, r1, n1) && Paid(b1, r1, b2, r2, n2) && all == n1 + n2
    ensures Paid(b0, r0, b2, r2, all)
  {
    SplitNeed(Empty(r0), n1, n2);
    assert Empty(r0) - n1 - n2 == Empty(r0) - (n1 + n2);
  }

  lemma BrokeTrans(b0: seq<bool>, r0: seq<nat>, b1: seq<bool>, r1: seq<nat>, n1: set<nat>, n2: set<nat>, all: set<nat>)
    requires Paid(b0, r0, b1, r1, n1) && Broke(b1, r1, n2) && n1 + n2 <= all
    ensures Broke(b0, r0, all)
  {
    SplitNeed(Empty(r0), n1, n2);
    Fewer(Empty(r0) * (n1 + n2), Empty(r0) * all);
  }

  lemma Fewer(a: set<nat>, b: set<nat>)
    requires a <= b
    ensures |a| <= |b|
  {
    assert b == a + (b - a);
  }

  lemma BrokeMore(bitmap: seq<bool>, row: seq<nat>, need: set<nat>, all: set<nat>)
    requires Broke(bitmap, row, need) && need <= all
    ensures Broke(bitmap, row, all)
  {
    Fewer(Empty(row) * need, Empty(row) * all);
  }

  /** A free block goes to an empty slot. */
  lemma PaidOne(bitmap: seq<bool>, row: seq<nat>, b: nat, k: nat)
    requires b < |bitmap| && !bitmap[b] && b != 0 && k < |row| && row[k] == 0
    ensures Paid(bitmap, row, bitmap[b := true], row[k := b], {k})
  {
    assert FreeBits(bitmap) == FreeBits(bitmap[b := true]) + {b};
    assert Empty(row[k := b]) == Empty(row) - {k};
    assert Empty(row) * {k} == {k};
  }

  lemma PaidHad(bitmap: seq<bool>, row: seq<nat>, k: nat)
    requires k < |row| && row[k] != 0
    ensures Paid(bitmap, row, bitmap, row, {k})
  {
    assert Empty(row) * {k} == {};
    PaidNothing(bitmap, row, {k});
  }

  lemma BrokeOne(bitmap: seq<bool>, row: seq<nat>, k: nat)
    requires k < |row| && row[k] == 0 && forall b :: 0 <= b < |bitmap| ==> bitmap[b]
    ensures Broke(bitmap, row, {k})
  {
    assert FreeBits(bitmap) == {};
    assert Empty(row) * {k} == {k};
  }

  // ---- ranges

  lemma NeededOne(bn: nat)
    requires bn < MAXFILE
    ensures bn < NDIRECT ==> Needed(bn, bn + 1) == {bn}
    ensures bn >= NDIRECT ==> Needed(bn, bn + 1) == {NDIRECT} + {bn + 1}
  {
  }

  lemma NeededNone(lo: nat)
    ensures Needed(lo, lo) == {}
  {
  }

  lemma NeededTwo(lo: nat, b: nat, a: nat, hi: nat)
    requires lo <= b <= a <= hi
    ensures Needed(lo, a) + Needed(b, hi) == Needed(lo, hi)
  {
  }

  lemma NeededMono(lo: nat, a: nat, hi: nat)
    requires a <= hi
    ensures Needed(lo, a) <= Needed(lo, hi)
  {
  }

  /** The slots a write of n bytes at `offset` needs when only the first `room` bytes can be read: those of every round
      up to the one that fails. */
  ghost function Reach(offset: nat, n: nat, room: nat): set<nat> {
    if n == 0 then {} else Needed(offset / BSIZE, LastByte(offset, n, room) / BSIZE + 1)
  }

  function LastByte(offset: nat, n: nat, room: nat): nat
    requires n > 0
  {
    offset + if room < n then room else n - 1
  }

  // ---- one slot after another

  /** The bitmap, and the slots of the inode that is written. */
  datatype Alloc = Alloc(bitmap: seq<bool>, row: seq<nat>)

  /** Slot k has its block: it had one, and nothing changed, or it got a free one. */
  ghost predicate Took(a: Alloc, a': Alloc, k: nat) {
    && k < |a.row| == |a'.row| && 0 < a'.row[k]
    && if a.row[k] != 0 then a' == a
       else
         && a'.row[k] < |a.bitmap| && !a.bitmap[a'.row[k]]
         && a'.bitmap == a.bitmap[a'.row[k] := true] && a'.row == a.row[k := a'.row[k]]
  }

  /** Slot k has no block and there is none. */
  ghost predicate Stuck(a: Alloc, k: nat) {
    k < |a.row| && a.row[k] == 0 && forall b :: 0 <= b < |a.bitmap| ==> a.bitmap[b]
  }

  ghost predicate TookAt(path: seq<Alloc>, ks: seq<nat>, q: nat)
    requires q < |ks| && q + 1 < |path|
  {
    Took(path[q], path[q + 1], ks[q])
  }

  /** Blocks for the slots in order, up to the first that can get none. */
  ghost predicate Takes(path: seq<Alloc>, ks: seq<nat>, ok: bool) {
    && 0 < |path| <= |ks| + 1 && (ok <==> |path| == |ks| + 1)
    && (forall q {:trigger TookAt(path, ks, q)} :: 0 <= q < |path| - 1 ==> TookAt(path, ks, q))
    && (!ok ==> Stuck(path[|path| - 1], ks[|path| - 1]))
  }

  lemma TakesOne(a: Alloc, a': Alloc, k: nat)
    requires Took(a, a', k)
    ensures Takes([a, a'], [k], true)
  {
    assert TookAt([a, a'], [k], 0);
  }

  lemma TakesNoneOf(a: Alloc, ks: seq<nat>) returns (path: seq<Alloc>)
    requires ks != [] && Stuck(a, ks[0])
    ensures Takes(path, ks, false) && path[0] == path[|path| - 1] == a
  {
    path := [a];
  }

  lemma TakesTwo(a: Alloc, a1: Alloc, a2: Alloc, k: nat, k': nat, ok: bool) returns (path: seq<Alloc>)
    requires Took(a, a1, k) && if ok then Took(a1, a2, k') else a2 == a1 && Stuck(a1, k')
    ensures Takes(path, [k, k'], ok) && path[0] == a && path[|path| - 1] == a2
  {
    path := if ok then [a, a1, a2] else [a, a1];
    assert TookAt(path, [k, k'], 0) && (ok ==> TookAt(path, [k, k'], 1));
  }

  lemma TakesStart(a: Alloc)
    ensures Takes([a], [], true)
  {
  }

  lemma TakesTrans(p: seq<Alloc>, ks: seq<nat>, p': seq<Alloc>, ks': seq<nat>, ok: bool)
    requires Takes(p, ks, true) && Takes(p', ks', ok) && p[|p| - 1] == p'[0]
    ensures Takes(p + p'[1..], ks + ks', ok)
    ensures (p + p'[1..])[0] == p[0] && (p + p'[1..])[|p + p'[1..]| - 1] == p'[|p'| - 1]
  {
    var all, kall := p + p'[1..], ks + ks';
    forall q | 0 <= q < |all| - 1 ensures TookAt(all, kall, q) {
      if q < |p| - 1 {
        assert TookAt(p, ks, q);
      } else {
        assert TookAt(p', ks', q - |ks|) && all[q + 1] == p'[q - |ks| + 1] && all[q] == p'[q - |ks|];
      }
    }
  }

  /** What was asked for after a slot that got none does not matter. */
  lemma TakesMore(p: seq<Alloc>, ks: seq<nat>, more: seq<nat>)
    requires Takes(p, ks, false)
    ensures Takes(p, ks + more, false)
  {
    forall q | 0 <= q < |p| - 1 ensures TookAt(p, ks + more, q) { assert TookAt(p, ks, q); }
  }

  ghost function Among(ks: seq<nat>): set<nat> {
    set k | k in ks
  }

  lemma TookPaid(a: Alloc, a': Alloc, k: nat)
    requires Took(a, a', k)
    ensures Paid(a.bitmap, a.row, a'.bitmap, a'.row, {k})
  {
    if a.row[k] != 0 { PaidHad(a.bitmap, a.row, k); } else { PaidOne(a.bitmap, a.row, a'.row[k], k); }
  }

  lemma {:induction false} TakesOutcome(p: seq<Alloc>, ks: seq<nat>, ok: bool)
    requires Takes(p, ks, ok)
    ensures ok ==> Paid(p[0].bitmap, p[0].row, p[|p| - 1].bitmap, p[|p| - 1].row, Among(ks))
    ensures !ok ==> Broke(p[0].bitmap, p[0].row, Among(ks))
    decreases |ks|
  {
    if ks == [] {
      PaidNothing(p[0].bitmap, p[0].row, Among(ks));
    } else {
      assert Among(ks) == {ks[0]} + Among(ks[1..]);
      if |p| == 1 {
        BrokeOne(p[0].bitmap, p[0].row, ks[0]);
        BrokeMore(p[0].bitmap, p[0].row, {ks[0]}, Among(ks));
      } else {
        TakesRest(p, ks, ok);
        TakesOutcome(p[1..], ks[1..], ok);
        TookPaid(p[0], p[1], ks[0]);
        Chained(p, ks, ok);
      }
    }
  }

  lemma TakesRest(p: seq<Alloc>, ks: seq<nat>, ok: bool)
    requires Takes(p, ks, ok) && ks != [] && |p| > 1
    ensures Takes(p[1..], ks[1..], ok) && Took(p[0], p[1], ks[0])
  {
    assert TookAt(p, ks, 0);
    forall q | 0 <= q < |p[1..]| - 1 ensures TookAt(p[1..], ks[1..], q) { assert TookAt(p, ks, q + 1); }
  }

  lemma Chained(p: seq<Alloc>, ks: seq<nat>, ok: bool)
    requires |p| > 1 && ks != [] && Paid(p[0].bitmap, p[0].row, p[1].bitmap, p[1].row, {ks[0]})
             && Among(ks) == {ks[0]} + Among(ks[1..])
    requires ok ==> Paid(p[1].bitmap, p[1].row, p[|p| - 1].bitmap, p[|p| - 1].row, Among(ks[1..]))
    requires !ok ==> Broke(p[1].bitmap, p[1].row, Among(ks[1..]))
    ensures ok ==> Paid(p[0].bitmap, p[0].row, p[|p| - 1].bitmap, p[|p| - 1].row, Among(ks))
    ensures !ok ==> Broke(p[0].bitmap, p[0].row, Among(ks))
  {
    if ok {
      PaidTrans(p[0].bitmap, p[0].row, p[1].bitmap, p[1].row, p[|p| - 1].bitmap, p[|p| - 1].row, {ks[0]},
                Among(ks[1..]), Among(ks));
    } else {
      BrokeTrans(p[0].bitmap, p[0].row, p[1].bitmap, p[1].row, {ks[0]}, Among(ks[1..]), Among(ks));
    }
  }

  /** The slots bmap asks for, in order: for one file block, and for a range. */
  function SlotsOf(bn: nat): seq<nat> {
    if bn < NDIRECT then [bn] else [NDIRECT, bn + 1]
  }

  function SlotsFor(lo: nat, hi: nat): seq<nat> {
    if hi <= lo then [] else SlotsFor(lo, hi - 1) + SlotsOf(hi - 1)
  }

  lemma {:induction false} SlotsNeeded(lo: nat, hi: nat)
    requires hi <= MAXFILE
    ensures Among(SlotsFor(lo, hi)) == Needed(lo, hi)
  {
    if hi > lo {
      SlotsNeeded(lo, hi - 1);
      NeededTwo(lo, hi - 1, hi - 1, hi);
      NeededOne(hi - 1);
      assert Among(SlotsFor(lo, hi)) == Among(SlotsFor(lo, hi - 1)) + Among(SlotsOf(hi - 1));
      assert Among(SlotsOf(hi - 1)) == Needed(hi - 1, hi);
    } else {
      assert Needed(lo, hi) == {};
    }
  }

  lemma {:induction false} SlotsLonger(lo: nat, mid: nat, hi: nat) returns (more: seq<nat>)
    requires lo <= mid <= hi
    ensures SlotsFor(lo, hi) == SlotsFor(lo, mid) + more
  {
    if mid == hi {
      more := [];
    } else {
      var m := SlotsLonger(lo, mid, hi - 1);
      more := m + SlotsOf(hi - 1);
    }
  }
}
