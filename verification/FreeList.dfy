/** The free list of user/umalloc.c as a sequence of blocks in address order, counted in header units. */
module FreeList {
  /** The static header `base`, below everything sbrk returns. */
  const BASE: nat := 1

  datatype Block = Block(addr: nat, size: nat)

  predicate Has(b: Block, x: nat) { b.addr <= x < b.addr + b.size }

  ghost predicate InList(fl: seq<Block>, x: nat) {
    exists i :: 0 <= i < |fl| && Has(fl[i], x)
  }

  ghost predicate Ordered(fl: seq<Block>) {
    forall i, j :: 0 <= i < j < |fl| ==> fl[i].addr + fl[i].size <= fl[j].addr
  }

  /** Block i does not touch the next. */
  predicate Gap(fl: seq<Block>, i: nat) {
    i + 1 < |fl| ==> fl[i].addr + fl[i].size < fl[i + 1].addr
  }

  predicate Touch(fl: seq<Block>, i: nat) {
    i + 1 < |fl| && fl[i].addr + fl[i].size == fl[i + 1].addr
  }

  ghost predicate Sized(fl: seq<Block>) {
    |fl| > 0 && fl[0] == Block(BASE, 0) && forall i :: 0 < i < |fl| ==> fl[i].size > 0 && fl[i].addr > BASE
  }

  /** `base` first, then the free blocks in address order, no two of them touching. */
  ghost predicate ListOk(fl: seq<Block>) {
    Sized(fl) && Ordered(fl) && forall i {:trigger Gap(fl, i)} :: 0 <= i < |fl| ==> Gap(fl, i)
  }

  /** Block b lies after block k and before the next. */
  ghost predicate Between(fl: seq<Block>, k: nat, b: Block) {
    && k < |fl| && b.size > 0 && b.addr > BASE
    && fl[k].addr + fl[k].size <= b.addr && (k + 1 < |fl| ==> b.addr + b.size <= fl[k + 1].addr)
  }

  // ---- free: insert, then merge upwards, then downwards

  function Placed(fl: seq<Block>, k: nat, b: Block): seq<Block>
    requires k < |fl|
  {
    fl[..k + 1] + [b] + fl[k + 1..]
  }

  function Merged(fl: seq<Block>, i: nat): seq<Block> {
    if Touch(fl, i) then fl[..i] + [Block(fl[i].addr, fl[i].size + fl[i + 1].size)] + fl[i + 2..] else fl
  }

  /** The list with b put in after block k, merged with both neighbours where they touch. */
  function Inserted(fl: seq<Block>, k: nat, b: Block): seq<Block>
    requires k < |fl|
  {
    Merged(Merged(Placed(fl, k, b), k + 1), k)
  }

  ghost predicate IsPlaced(fl: seq<Block>, l: seq<Block>, k: nat, b: Block) {
    && k < |fl| && |l| == |fl| + 1 && l[k + 1] == b
    && (forall j {:trigger l[j]} :: 0 <= j <= k ==> l[j] == fl[j])
    && (forall j {:trigger l[j]} :: k + 1 < j < |l| ==> l[j] == fl[j - 1])
  }

  ghost predicate IsMerged(l: seq<Block>, m: seq<Block>, i: nat) {
    && i + 1 < |l| && |m| == |l| - 1 && m[i] == Block(l[i].addr, l[i].size + l[i + 1].size)
    && (forall j {:trigger m[j]} :: 0 <= j < i ==> m[j] == l[j])
    && (forall j {:trigger m[j]} :: i < j < |m| ==> m[j] == l[j + 1])
  }

  lemma PlacedIs(fl: seq<Block>, k: nat, b: Block)
    requires k < |fl|
    ensures IsPlaced(fl, Placed(fl, k, b), k, b)
  {
  }

  lemma MergedIs(l: seq<Block>, i: nat)
    requires Touch(l, i)
    ensures IsMerged(l, Merged(l, i), i)
  {
  }

  lemma PlacedOk(fl: seq<Block>, l: seq<Block>, k: nat, b: Block)
    requires ListOk(fl) && Between(fl, k, b) && IsPlaced(fl, l, k, b)
    ensures Sized(l) && Ordered(l)
    ensures forall i {:trigger Gap(l, i)} :: 0 <= i < |l| && i != k && i != k + 1 ==> Gap(l, i)
  {
    forall i, j | 0 <= i < j < |l| ensures l[i].addr + l[i].size <= l[j].addr { PlacedOrder(fl, l, k, b, i, j); }
    forall i | 0 <= i < |l| && i != k && i != k + 1 ensures Gap(l, i) { PlacedGap(fl, l, k, b, i); }
  }

  lemma PlacedOrder(fl: seq<Block>, l: seq<Block>, k: nat, b: Block, i: nat, j: nat)
    requires Ordered(fl) && Between(fl, k, b) && IsPlaced(fl, l, k, b) && i < j < |l|
    ensures l[i].addr + l[i].size <= l[j].addr
  {
    var i' := if i <= k then i else i - 1;
    var j' := if j <= k then j else j - 1;
    if i == k + 1 {
      assert l[j] == fl[j'] && fl[k + 1].addr <= fl[j'].addr;
    } else if j == k + 1 {
      assert l[i] == fl[i'] && fl[i'].addr + fl[i'].size <= fl[k].addr + fl[k].size;
    } else {
      assert l[i] == fl[i'] && l[j] == fl[j'];
    }
  }

  lemma PlacedGap(fl: seq<Block>, l: seq<Block>, k: nat, b: Block, i: nat)
    requires ListOk(fl) && IsPlaced(fl, l, k, b) && i < |l| && i != k && i != k + 1
    ensures Gap(l, i)
  {
    var i' := if i < k then i else i - 1;
    assert Gap(fl, i');
    if i + 1 < |l| { assert l[i] == fl[i'] && l[i + 1] == fl[i' + 1]; }
  }

  lemma MergedOk(l: seq<Block>, m: seq<Block>, i: nat)
    requires Sized(l) && Ordered(l) && Touch(l, i) && IsMerged(l, m, i) && i > 0
    ensures Sized(m) && Ordered(m)
  {
  }

  lemma MergedGap(l: seq<Block>, m: seq<Block>, i: nat, j: nat)
    requires Touch(l, i) && IsMerged(l, m, i) && j < |m| && Gap(l, if j < i then j else j + 1)
    ensures Gap(m, j)
  {
  }

  /** Merging at i leaves a gap there, and the other gaps. */
  lemma MergeStep(l: seq<Block>, i: nat, but: nat)
    requires Sized(l) && Ordered(l) && but <= i && (Touch(l, i) ==> i > 0)
    requires forall j {:trigger Gap(l, j)} :: 0 <= j < |l| && j != but && j != i ==> Gap(l, j)
    ensures Sized(Merged(l, i)) && Ordered(Merged(l, i))
    ensures forall j {:trigger Gap(Merged(l, i), j)} :: 0 <= j < |Merged(l, i)| && (j != but || but == i) ==>
            Gap(Merged(l, i), j)
  {
    var m := Merged(l, i);
    if Touch(l, i) {
      MergedIs(l, i);
      MergedOk(l, m, i);
      forall j | 0 <= j < |m| && (j != but || but == i) ensures Gap(m, j) {
        if j != i || i + 1 < |m| { MergedGap(l, m, i, j); }
      }
    } else {
      MustGap(l, i);
    }
  }

  /** Freeing keeps the list in order, with no two blocks touching. */
  lemma InsertedOk(fl: seq<Block>, k: nat, b: Block)
    requires ListOk(fl) && Between(fl, k, b)
    ensures ListOk(Inserted(fl, k, b))
  {
    var l := Placed(fl, k, b);
    PlacedIs(fl, k, b);
    PlacedOk(fl, l, k, b);
    MergeStep(l, k + 1, k);
    var l1 := Merged(l, k + 1);
    FirstStays(l, k);
    MergeStep(l1, k, k);
  }

  lemma FirstStays(l: seq<Block>, k: nat)
    requires Sized(l) && k + 1 < |l|
    ensures Touch(Merged(l, k + 1), k) ==> k > 0
  {
  }

  lemma MustGap(l: seq<Block>, i: nat)
    requires Ordered(l) && !Touch(l, i)
    ensures Gap(l, i)
  {
  }

  lemma PlacedUnits(fl: seq<Block>, l: seq<Block>, k: nat, b: Block, x: nat)
    requires IsPlaced(fl, l, k, b)
    ensures InList(l, x) <==> InList(fl, x) || Has(b, x)
  {
    if InList(fl, x) {
      var i :| 0 <= i < |fl| && Has(fl[i], x);
      assert Has(l[if i <= k then i else i + 1], x);
    }
    if Has(b, x) { assert Has(l[k + 1], x); }
    if InList(l, x) {
      var i :| 0 <= i < |l| && Has(l[i], x);
      if i != k + 1 { assert Has(fl[if i <= k then i else i - 1], x); }
    }
  }

  lemma MergedUnits(l: seq<Block>, m: seq<Block>, i: nat, x: nat)
    requires Touch(l, i) && IsMerged(l, m, i)
    ensures InList(m, x) <==> InList(l, x)
  {
    if InList(l, x) {
      var j :| 0 <= j < |l| && Has(l[j], x);
      assert Has(m[if j <= i then j else j - 1], x);
    }
    if InList(m, x) {
      var j :| 0 <= j < |m| && Has(m[j], x);
      assert Has(l[if j < i || (j == i && x < l[i].addr + l[i].size) then j else j + 1], x);
    }
  }

  /** The free units are those free before and those of b. */
  lemma InsertedUnits(fl: seq<Block>, k: nat, b: Block, x: nat)
    requires k < |fl|
    ensures InList(Inserted(fl, k, b), x) <==> InList(fl, x) || Has(b, x)
  {
    var l := Placed(fl, k, b);
    PlacedIs(fl, k, b);
    PlacedUnits(fl, l, k, b, x);
    var l1 := Merged(l, k + 1);
    if Touch(l, k + 1) {
      MergedIs(l, k + 1);
      MergedUnits(l, l1, k + 1, x);
    }
    if Touch(l1, k) {
      MergedIs(l1, k);
      MergedUnits(l1, Merged(l1, k), k, x);
    }
  }

  // ---- malloc

  /** Block k without its last n units, or gone if it has exactly n. */
  function Taken(fl: seq<Block>, k: nat, n: nat): seq<Block>
    requires k < |fl| && n <= fl[k].size
  {
    if fl[k].size == n then fl[..k] + fl[k + 1..] else fl[k := Block(fl[k].addr, fl[k].size - n)]
  }

  function TakenBlock(fl: seq<Block>, k: nat, n: nat): Block
    requires k < |fl| && n <= fl[k].size
  {
    Block(fl[k].addr + fl[k].size - n, n)
  }

  lemma TakenOk(fl: seq<Block>, k: nat, n: nat)
    requires ListOk(fl) && 0 < k < |fl| && 0 < n <= fl[k].size
    ensures ListOk(Taken(fl, k, n))
  {
    var r := Taken(fl, k, n);
    forall i | 0 <= i < |r| ensures Gap(r, i) {
      if fl[k].size == n {
        assert Gap(fl, if i < k then i else i + 1);
      } else {
        assert Gap(fl, i);
      }
    }
  }

  /** The units taken were free, and no longer are. */
  lemma TakenUnits(fl: seq<Block>, k: nat, n: nat, x: nat)
    requires ListOk(fl) && 0 < k < |fl| && 0 < n <= fl[k].size
    ensures InList(fl, x) <==> InList(Taken(fl, k, n), x) || Has(TakenBlock(fl, k, n), x)
    ensures !(InList(Taken(fl, k, n), x) && Has(TakenBlock(fl, k, n), x))
  {
    if InList(fl, x) && !Has(TakenBlock(fl, k, n), x) { NotTaken(fl, k, n, x); }
    if InList(Taken(fl, k, n), x) { StillFree(fl, k, n, x); }
    if Has(TakenBlock(fl, k, n), x) { assert Has(fl[k], x); }
  }

  lemma NotTaken(fl: seq<Block>, k: nat, n: nat, x: nat)
    requires k < |fl| && 0 < n <= fl[k].size && InList(fl, x) && !Has(TakenBlock(fl, k, n), x)
    ensures InList(Taken(fl, k, n), x)
  {
    var i :| 0 <= i < |fl| && Has(fl[i], x);
    assert Has(Taken(fl, k, n)[if i > k && fl[k].size == n then i - 1 else i], x);
  }

  lemma StillFree(fl: seq<Block>, k: nat, n: nat, x: nat)
    requires Ordered(fl) && k < |fl| && 0 < n <= fl[k].size && InList(Taken(fl, k, n), x)
    ensures InList(fl, x) && !Has(TakenBlock(fl, k, n), x)
  {
    var r := Taken(fl, k, n);
    var j :| 0 <= j < |r| && Has(r[j], x);
    var i := if j >= k && fl[k].size == n then j + 1 else j;
    assert Has(fl[i], x) && (i == k ==> x < fl[k].addr + fl[k].size - n);
  }
}
