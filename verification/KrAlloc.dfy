/** user/umalloc.c: malloc and free on headers in memory, against the list of free blocks. */
module KrAlloc {
  import opened Params
  import opened FreeList

  /** union header: the next free block, and the size in units; a unit is sizeof(Header) bytes. */
  datatype Header = Header(ptr: nat, size: nat)

  const UNIT: nat := 16

  function NextAddr(fl: seq<Block>, i: nat): nat
    requires i < |fl|
  {
    if i + 1 < |fl| then fl[i + 1].addr else fl[0].addr
  }

  ghost predicate LinkOk(hdr: map<nat, Header>, fl: seq<Block>, i: nat)
    requires i < |fl|
  {
    fl[i].addr in hdr && hdr[fl[i].addr] == Header(NextAddr(fl, i), fl[i].size)
  }

  /** The headers chain the blocks in a circle, but for the link of `but`. */
  ghost predicate LinkedBut(hdr: map<nat, Header>, fl: seq<Block>, but: int) {
    forall i {:trigger LinkOk(hdr, fl, i)} :: 0 <= i < |fl| && i != but ==> LinkOk(hdr, fl, i)
  }

  lemma Rising(l: seq<Block>, i: nat, j: nat)
    requires Sized(l) && Ordered(l) && i < j < |l|
    ensures l[i].addr < l[j].addr
  {
  }

  lemma PlacedLinks(hdr: map<nat, Header>, fl: seq<Block>, k: nat, b: Block)
    requires ListOk(fl) && Between(fl, k, b) && LinkedBut(hdr, fl, -1)
    ensures LinkedBut(hdr[b.addr := Header(NextAddr(fl, k), b.size)], Placed(fl, k, b), k)
  {
    var l := Placed(fl, k, b);
    PlacedIs(fl, k, b);
    PlacedOk(fl, l, k, b);
    var h := hdr[b.addr := Header(NextAddr(fl, k), b.size)];
    forall i | 0 <= i < |l| && i != k ensures LinkOk(h, l, i) {
      if i < k {
        assert LinkOk(hdr, fl, i) && l[i] == fl[i] && l[i + 1] == fl[i + 1];
        Rising(l, i, k + 1);
      } else if i == k + 1 {
        assert l[0] == fl[0] && (i + 1 < |l| ==> l[i + 1] == fl[i]);
      } else {
        assert LinkOk(hdr, fl, i - 1) && l[i] == fl[i - 1] && l[0] == fl[0] && (i + 1 < |l| ==> l[i + 1] == fl[i]);
        Rising(l, k + 1, i);
      }
    }
  }

  lemma MergedLinks(hdr: map<nat, Header>, l: seq<Block>, i: nat, but: int)
    requires Sized(l) && Ordered(l) && Touch(l, i) && i > 0 && LinkedBut(hdr, l, but) && but < i
    ensures l[i + 1].addr in hdr
    ensures LinkedBut(hdr[l[i].addr := Header(hdr[l[i + 1].addr].ptr, l[i].size + l[i + 1].size)], Merged(l, i), but)
  {
    var m := Merged(l, i);
    MergedIs(l, i);
    assert LinkOk(hdr, l, i + 1);
    var h := hdr[l[i].addr := Header(hdr[l[i + 1].addr].ptr, l[i].size + l[i + 1].size)];
    forall j | 0 <= j < |m| && j != but ensures LinkOk(h, m, j) {
      if j < i {
        assert LinkOk(hdr, l, j) && m[j] == l[j] && m[j + 1].addr == l[j + 1].addr;
        Rising(l, j, i);
      } else if j == i {
        assert m[0] == l[0] && (j + 1 < |m| ==> m[j + 1] == l[j + 2]);
      } else {
        assert LinkOk(hdr, l, j + 1) && m[j] == l[j + 1] && m[0] == l[0] && (j + 1 < |m| ==> m[j + 1] == l[j + 2]);
        Rising(l, i, j + 1);
      }
    }
  }

  /** Setting the missing link. */
  lemma FixedLink(hdr: map<nat, Header>, l: seq<Block>, k: nat)
    requires Sized(l) && Ordered(l) && k < |l| && LinkedBut(hdr, l, k)
    ensures LinkedBut(hdr[l[k].addr := Header(NextAddr(l, k), l[k].size)], l, -1)
  {
    var h := hdr[l[k].addr := Header(NextAddr(l, k), l[k].size)];
    forall i | 0 <= i < |l| ensures LinkOk(h, l, i) {
      if i < k { assert LinkOk(hdr, l, i); Rising(l, i, k); }
      if i > k { assert LinkOk(hdr, l, i); Rising(l, k, i); }
    }
  }

  // ---- what is where

  ghost predicate InUse(alloc: map<nat, nat>, x: nat) {
    exists a :: a in alloc && Has(Block(a, alloc[a]), x)
  }

  /** A unit from sbrk is free or in an allocated block, and not both. */
  ghost predicate UnitOk(fl: seq<Block>, alloc: map<nat, nat>, arena: set<nat>, x: nat) {
    && (x in arena <==> InList(fl, x) || InUse(alloc, x))
    && !(InList(fl, x) && InUse(alloc, x))
  }

  /** Free and allocated blocks partition the memory obtained, and allocated blocks do not overlap. */
  ghost predicate Partition(fl: seq<Block>, alloc: map<nat, nat>, arena: set<nat>) {
    && (forall x: nat {:trigger UnitOk(fl, alloc, arena, x)} :: UnitOk(fl, alloc, arena, x))
    && (forall a, b :: a in alloc && b in alloc && a < b ==> a + alloc[a] <= b)
    && (forall a :: a in alloc ==> alloc[a] > 0 && a > BASE)
  }

  /** A block in use lies between two neighbours of the list. */
  lemma UsedBetween(fl: seq<Block>, alloc: map<nat, nat>, arena: set<nat>, a: nat, k: nat)
    requires ListOk(fl) && Partition(fl, alloc, arena) && a in alloc && k < |fl| && fl[k].addr < a
    requires k + 1 < |fl| ==> a < fl[k + 1].addr
    ensures Between(fl, k, Block(a, alloc[a]))
  {
    assert Has(Block(a, alloc[a]), a) && UnitOk(fl, alloc, arena, a);
    if fl[k].addr + fl[k].size > a { assert Has(fl[k], a); }
    if k + 1 < |fl| && a + alloc[a] > fl[k + 1].addr {
      var x := fl[k + 1].addr;
      assert Has(fl[k + 1], x) && Has(Block(a, alloc[a]), x) && UnitOk(fl, alloc, arena, x);
    }
  }

  lemma NotListed(fl: seq<Block>, alloc: map<nat, nat>, arena: set<nat>, a: nat, i: nat)
    requires ListOk(fl) && Partition(fl, alloc, arena) && a in alloc && i < |fl|
    ensures fl[i].addr != a
  {
    if i > 0 && fl[i].addr == a { assert Has(fl[i], a) && Has(Block(a, alloc[a]), a) && UnitOk(fl, alloc, arena, a); }
  }

  lemma FreedPartition(fl: seq<Block>, alloc: map<nat, nat>, arena: set<nat>, a: nat, k: nat)
    requires ListOk(fl) && Partition(fl, alloc, arena) && a in alloc && k < |fl| && Between(fl, k, Block(a, alloc[a]))
    ensures Partition(Inserted(fl, k, Block(a, alloc[a])), alloc - {a}, arena)
  {
    var b := Block(a, alloc[a]);
    forall x: nat ensures UnitOk(Inserted(fl, k, b), alloc - {a}, arena, x) {
      assert UnitOk(fl, alloc, arena, x);
      InsertedUnits(fl, k, b, x);
      InUseWithout(alloc, a, x);
    }
  }

  lemma InUseWithout(alloc: map<nat, nat>, a: nat, x: nat)
    requires a in alloc && forall a, b :: a in alloc && b in alloc && a < b ==> a + alloc[a] <= b
    ensures InUse(alloc, x) <==> InUse(alloc - {a}, x) || Has(Block(a, alloc[a]), x)
    ensures !(InUse(alloc - {a}, x) && Has(Block(a, alloc[a]), x))
  {
    if InUse(alloc, x) {
      var c :| c in alloc && Has(Block(c, alloc[c]), x);
      if c != a { assert c in alloc - {a} && Has(Block(c, (alloc - {a})[c]), x); }
    }
    if InUse(alloc - {a}, x) {
      var c :| c in alloc - {a} && Has(Block(c, (alloc - {a})[c]), x);
      assert c in alloc && Has(Block(c, alloc[c]), x);
    }
  }

  lemma InUseWith(alloc: map<nat, nat>, a: nat, n: nat, x: nat)
    requires a !in alloc
    ensures InUse(alloc[a := n], x) <==> InUse(alloc, x) || Has(Block(a, n), x)
  {
    var al := alloc[a := n];
    if InUse(alloc, x) {
      var c :| c in alloc && Has(Block(c, alloc[c]), x);
      assert c in al && Has(Block(c, al[c]), x);
    }
    if Has(Block(a, n), x) { assert a in al && Has(Block(a, al[a]), x); }
    if InUse(al, x) {
      var c :| c in al && Has(Block(c, al[c]), x);
      if c != a { assert c in alloc && Has(Block(c, alloc[c]), x); }
    }
  }

  /** Blocks taken from the list are in use. */
  lemma TakenPartition(fl: seq<Block>, alloc: map<nat, nat>, arena: set<nat>, k: nat, n: nat)
    requires ListOk(fl) && Partition(fl, alloc, arena) && 0 < k < |fl| && 0 < n <= fl[k].size
    ensures var b := TakenBlock(fl, k, n); b.addr !in alloc && Partition(Taken(fl, k, n), alloc[b.addr := n], arena)
  {
    var b := TakenBlock(fl, k, n);
    assert Has(fl[k], b.addr) && UnitOk(fl, alloc, arena, b.addr);
    assert b.addr in alloc ==> Has(Block(b.addr, alloc[b.addr]), b.addr);
    var fl', alloc' := Taken(fl, k, n), alloc[b.addr := n];
    forall x: nat ensures UnitOk(fl', alloc', arena, x) {
      assert UnitOk(fl, alloc, arena, x);
      TakenUnits(fl, k, n, x);
      InUseWith(alloc, b.addr, n, x);
    }
    forall a | a in alloc ensures if a < b.addr then a + alloc[a] <= b.addr else b.addr + n <= a {
      TakenApart(fl, alloc, arena, k, n, a);
    }
  }

  lemma TakenApart(fl: seq<Block>, alloc: map<nat, nat>, arena: set<nat>, k: nat, n: nat, a: nat)
    requires ListOk(fl) && Partition(fl, alloc, arena) && 0 < k < |fl| && 0 < n <= fl[k].size && a in alloc
    ensures var b := TakenBlock(fl, k, n); if a < b.addr then a + alloc[a] <= b.addr else b.addr + n <= a
  {
    var b := TakenBlock(fl, k, n);
    var x := if a < b.addr then b.addr else a;
    assert UnitOk(fl, alloc, arena, x);
    assert Has(b, x) ==> Has(fl[k], x);
    assert !(Has(b, x) && Has(Block(a, alloc[a]), x));
  }

  /** malloc's stores: the block is unlinked, or shortened and a header put at the units split off. */
  function Carved(hdr: map<nat, Header>, prevp: nat, p: nat, n: nat): map<nat, Header>
    requires prevp in hdr && p in hdr && n <= hdr[p].size
  {
    if hdr[p].size == n then hdr[prevp := hdr[prevp].(ptr := hdr[p].ptr)]
    else hdr[p := hdr[p].(size := hdr[p].size - n)][p + hdr[p].size - n := Header(0, n)]
  }

  lemma UnlinkedLinks(hdr: map<nat, Header>, fl: seq<Block>, i: nat, k: nat)
    requires ListOk(fl) && LinkedBut(hdr, fl, -1) && k == i + 1 < |fl| && LinkOk(hdr, fl, i) && LinkOk(hdr, fl, k)
    ensures LinkedBut(hdr[fl[i].addr := hdr[fl[i].addr].(ptr := hdr[fl[k].addr].ptr)], fl[..k] + fl[k + 1..], -1)
  {
    var r := fl[..k] + fl[k + 1..];
    var h := hdr[fl[i].addr := hdr[fl[i].addr].(ptr := hdr[fl[k].addr].ptr)];
    forall j | 0 <= j < |r| ensures LinkOk(h, r, j) {
      if j < i {
        assert LinkOk(hdr, fl, j) && r[j] == fl[j] && r[j + 1] == fl[j + 1];
        Rising(fl, j, i);
      } else if j == i {
        assert r[j] == fl[i] && r[0] == fl[0] && (j + 1 < |r| ==> r[j + 1] == fl[k + 1]);
      } else {
        assert LinkOk(hdr, fl, j + 1) && r[j] == fl[j + 1] && r[0] == fl[0] && (j + 1 < |r| ==> r[j + 1] == fl[j + 2]);
        Rising(fl, i, j + 1);
      }
    }
  }

  lemma ShortenedLinks(hdr: map<nat, Header>, fl: seq<Block>, k: nat, n: nat, q: nat)
    requires ListOk(fl) && LinkedBut(hdr, fl, -1) && 0 < k < |fl| && 0 < n < fl[k].size
             && q == fl[k].addr + fl[k].size - n
    requires LinkOk(hdr, fl, k)
    ensures LinkedBut(hdr[fl[k].addr := hdr[fl[k].addr].(size := fl[k].size - n)][q := Header(0, n)],
                      fl[k := Block(fl[k].addr, fl[k].size - n)], -1)
  {
    var r := fl[k := Block(fl[k].addr, fl[k].size - n)];
    var h := hdr[fl[k].addr := hdr[fl[k].addr].(size := fl[k].size - n)][q := Header(0, n)];
    forall j | 0 <= j < |r| ensures LinkOk(h, r, j) {
      assert LinkOk(hdr, fl, j);
      if j < k { Rising(fl, j, k); }
      if j > k { assert fl[k].addr + fl[k].size <= fl[j].addr; }
    }
  }

  lemma CarvedLinks(hdr: map<nat, Header>, fl: seq<Block>, i: nat, n: nat)
    requires ListOk(fl) && LinkedBut(hdr, fl, -1) && i + 1 < |fl| && 0 < n <= fl[i + 1].size
    ensures fl[i].addr in hdr && fl[i + 1].addr in hdr && hdr[fl[i + 1].addr].size == fl[i + 1].size
    ensures LinkedBut(Carved(hdr, fl[i].addr, fl[i + 1].addr, n), Taken(fl, i + 1, n), -1)
  {
    var k := i + 1;
    assert LinkOk(hdr, fl, i) && LinkOk(hdr, fl, k);
    if fl[k].size == n {
      UnlinkedLinks(hdr, fl, i, k);
    } else {
      ShortenedLinks(hdr, fl, k, n, fl[k].addr + fl[k].size - n);
    }
  }

  /** The list is as it should be, and freep is at its element f. */
  ghost predicate ListAt(hdr: map<nat, Header>, freep: nat, fl: seq<Block>, f: nat) {
    ListOk(fl) && LinkedBut(hdr, fl, -1) && f < |fl| && freep == fl[f].addr
  }

  /** Every unit is in one block, and blocks in use have their size in their header. */
  ghost predicate HeapOk(hdr: map<nat, Header>, fl: seq<Block>, alloc: map<nat, nat>, arena: set<nat>) {
    Partition(fl, alloc, arena) && forall a :: a in alloc ==> a in hdr && hdr[a].size == alloc[a]
  }

  /** What malloc's stores leave. */
  lemma TakenHeap(hdr: map<nat, Header>, fl: seq<Block>, alloc: map<nat, nat>, arena: set<nat>, prevp: nat, p: nat,
                  i: nat, n: nat)
    requires ListOk(fl) && LinkedBut(hdr, fl, -1) && HeapOk(hdr, fl, alloc, arena)
    requires i + 1 < |fl| && prevp == fl[i].addr && p == fl[i + 1].addr && 0 < n <= fl[i + 1].size
    ensures prevp in hdr && p in hdr && n <= hdr[p].size && i < |Taken(fl, i + 1, n)|
    ensures ListAt(Carved(hdr, prevp, p, n), prevp, Taken(fl, i + 1, n), i)
    ensures p + hdr[p].size - n == TakenBlock(fl, i + 1, n).addr && p + hdr[p].size - n !in alloc
    ensures HeapOk(Carved(hdr, prevp, p, n), Taken(fl, i + 1, n), alloc[p + hdr[p].size - n := n], arena)
  {
    TakenOk(fl, i + 1, n);
    TakenPartition(fl, alloc, arena, i + 1, n);
    CarvedLinks(hdr, fl, i, n);
    CarvedHeaders(hdr, fl, alloc, arena, i, n);
  }

  // ---- the code

  /** The heap when malloc's loop begins. */
  datatype Before = Before(arena: set<nat>, got: set<nat>, alloc: map<nat, nat>, fl: seq<Block>, f: nat)

  /** What sbrk returns is the end of the process's memory. */
  ghost predicate AtEnd(got: set<nat>, sbrk: Option<nat>) {
    sbrk.Some? ==> sbrk.value > BASE && forall x :: x in got ==> x < sbrk.value
  }

  /** How much of the circle is left to the block at f. */
  function ToGo(i: nat, f: nat, n: nat): int {
    if i < f then f - i else n - i + f
  }

  class Heap {
    var hdr: map<nat, Header>
    /** 0 until the first malloc. */
    var freep: nat
    ghost var fl: seq<Block>
    /** Where freep is in the list. */
    ghost var f: nat
    ghost var alloc: map<nat, nat>
    /** The units claimed in headers; the code does not keep them, the model asks them where two claims would
        overlap. */
    var arena: set<nat>
    /** The units that sbrk has given and not taken back. */
    ghost var got: set<nat>

    /** No memory is claimed that the process does not have. */
    ghost predicate Sound()
      reads this
    {
      arena <= got
    }

    /** A block of n units at `end` was claimed; arena0 and got0 are the sets before. */
    ghost predicate Cored(arena0: set<nat>, got0: set<nat>, end: nat, n: nat)
      reads this
    {
      && arena == arena0 + Units(end, CoreUnits(n)) && got == Moved(got0, end, SbrkArg(CoreUnits(n) * UNIT))
      && (arena0 <= got0 ==> (Sound() <==> Exact(n)))
    }

    /** sbrk gave memory apart from all that was claimed. */
    ghost predicate Grown(arena0: set<nat>, got0: set<nat>, sbrk: Option<nat>, n: nat)
      reads this
    {
      sbrk.Some? && Cored(arena0, got0, sbrk.value, n) && !Overlap(arena0, sbrk.value, CoreUnits(n))
    }

    ghost predicate Started()
      reads this
    {
      ListAt(hdr, freep, fl, f)
    }

    ghost predicate Valid()
      reads this
    {
      && (if freep == 0 then fl == [] && alloc == map[] && arena == {} else Started())
      && HeapOk(hdr, fl, alloc, arena)
    }

    constructor ()
      ensures Valid() && Sound() && freep == 0 && fl == [] && alloc == map[] && arena == {} && got == {}
    {
      hdr, freep, fl, f, alloc, arena, got := map[], 0, [], 0, map[], {}, {};
      new;
      forall x: nat ensures UnitOk(fl, alloc, arena, x) { }
    }

    /** free's search: the block before bp in address order. It ends within one turn of the circle. */
    method FindSpot(bp: nat) returns (p: nat, ghost k: nat)
      requires Valid() && Started() && bp in alloc
      ensures k < |fl| && p == fl[k].addr && Between(fl, k, Block(bp, alloc[bp]))
    {
      ghost var goal := LastBelow(fl, bp);
      p := freep;
      k := f;
      while true
        invariant k < |fl| && p == fl[k].addr
        decreases if k <= goal then goal - k else |fl| - k + goal
      {
        assert LinkOk(hdr, fl, k);
        NotListed(fl, alloc, arena, bp, k);
        SpotOrder(fl, bp, goal, k);
        if k + 1 < |fl| { NotListed(fl, alloc, arena, bp, k + 1); }
        var q := hdr[p].ptr;
        if bp > p && bp < q { break; }
        if p >= q && (bp > p || bp < q) { break; }
        p := q;
        k := if k + 1 < |fl| then k + 1 else 0;
      }
      UsedBetween(fl, alloc, arena, bp, k);
    }

    /** Puts the block with header ap - 1 back, after block k, merged with the free blocks it touches. */
    method Free(ap: nat) returns (ghost k: nat)
      requires Valid() && freep != 0 && ap > 0 && ap - 1 in alloc
      modifies this
      ensures Valid() && freep != 0 && arena == old(arena) && got == old(got) && alloc == old(alloc) - {ap - 1}
      ensures k < |old(fl)| && Between(old(fl), k, Block(ap - 1, old(alloc)[ap - 1]))
      ensures fl == Inserted(old(fl), k, Block(ap - 1, old(alloc)[ap - 1])) && freep == old(fl)[k].addr
    {
      var bp := ap - 1;
      ghost var b := Block(bp, alloc[bp]);
      var p;
      p, k := FindSpot(bp);
      assert LinkOk(hdr, fl, k);
      FreedLinks(hdr, fl, k, b);
      FreedHeaders(hdr, alloc, arena, fl, k, bp);
      InsertedOk(fl, k, b);
      InsertedAt(fl, k, b);
      FreedPartition(fl, alloc, arena, bp, k);
      Relink(p, bp);
      freep, fl, f, alloc := p, Inserted(fl, k, b), k, alloc - {bp};
    }

    /** morecore: at least 4096 units more. sbrk returns the old end of the process's memory, or fails; it moves the end
        by its argument, an int. The block is claimed whatever that was, so that no more is claimed than there is if and
        only if the argument was what morecore meant. The model stops (`clash`) where the new block overlaps one claimed
        before. */
    method Morecore(nu: nat, sbrk: Option<nat>) returns (p: nat, clash: bool)
      requires Valid() && freep != 0 && 0 < nu && AtEnd(got, sbrk)
      modifies this
      ensures Valid() && freep != 0 && alloc == old(alloc)
      ensures clash <==> sbrk.Some? && Overlap(old(arena), sbrk.value, CoreUnits(nu))
      ensures sbrk.None? || clash ==>
                p == 0 && fl == old(fl) && f == old(f) && hdr == old(hdr) && arena == old(arena) && got == old(got)
      ensures sbrk.Some? && !clash ==> p == freep && Big(fl, nu) && Grown(old(arena), old(got), sbrk, nu)
    {
      var n := if nu < 4096 then 4096 else nu;
      var bytes := SbrkArg(n * UNIT);
      if sbrk.None? { return 0, false; }
      var hp := sbrk.value;
      clash := Overlap(arena, hp, n);
      if clash { return 0, true; }
      MovedSound(arena, got, hp, n);
      FreeNew(hp, n);
      got := Moved(got, hp, bytes);
      p := freep;
    }

    /** The new memory, and free. */
    method FreeNew(hp: nat, n: nat)
      requires Valid() && freep != 0 && hp > BASE && n > 0 && !Overlap(arena, hp, n)
      modifies this
      ensures Valid() && freep != 0 && alloc == old(alloc) && got == old(got)
      ensures arena == old(arena) + Units(hp, n) && Big(fl, n)
    {
      Claim(hp, n);
      ghost var fl0 := fl;
      ghost var k := Free(hp + 1);
      InsertedBig(fl0, k, Block(hp, n));
    }

    /** The new memory gets a header: it is a block in use, until morecore frees it. */
    method Claim(hp: nat, n: nat)
      requires Valid() && freep != 0 && hp > BASE && n > 0 && !Overlap(arena, hp, n)
      modifies this
      ensures Valid() && freep == old(freep) && fl == old(fl) && f == old(f) && got == old(got)
      ensures hp !in old(alloc) && alloc == old(alloc)[hp := n] && arena == old(arena) + Units(hp, n)
    {
      GrownPartition(fl, alloc, arena, hp, n);
      GrownLinks(hdr, fl, alloc, arena, hp, n, Header(0, n));
      hdr := hdr[hp := Header(0, n)];
      alloc := alloc[hp := n];
      arena := arena + Units(hp, n);
    }

    /** One turn of malloc's search succeeds: the block after prevp, at index i + 1, gives n units from its end. */
    method Take(prevp: nat, p: nat, n: nat, ghost i: nat) returns (r: nat)
      requires Valid() && freep != 0 && i + 1 < |fl| && prevp == fl[i].addr && p == fl[i + 1].addr
               && 0 < n <= fl[i + 1].size
      modifies this
      ensures Valid() && freep == prevp && arena == old(arena) && got == old(got)
      ensures fl == Taken(old(fl), i + 1, n) && r == TakenBlock(old(fl), i + 1, n).addr + 1
      ensures r - 1 !in old(alloc) && alloc == old(alloc)[r - 1 := n]
    {
      TakenHeap(hdr, fl, alloc, arena, prevp, p, i, n);
      var q := Carve(prevp, p, n);
      fl, f, freep := Taken(fl, i + 1, n), i, prevp;
      alloc := alloc[q := n];
      r := q + 1;
    }

    method Carve(prevp: nat, p: nat, n: nat) returns (q: nat)
      requires prevp in hdr && p in hdr && n <= hdr[p].size
      modifies this`hdr
      ensures hdr == Carved(old(hdr), prevp, p, n) && q == p + old(hdr)[p].size - n
    {
      q := p;
      if hdr[p].size == n {
        hdr := hdr[prevp := hdr[prevp].(ptr := hdr[p].ptr)];
      } else {
        hdr := hdr[p := hdr[p].(size := hdr[p].size - n)];
        q := q + hdr[p].size;
        hdr := hdr[q := Header(0, n)];
      }
    }

    /** malloc's first call makes a list of `base` alone. */
    method Start()
      requires Valid()
      modifies this
      ensures Valid() && freep != 0 && arena == old(arena) && got == old(got) && alloc == old(alloc)
      ensures old(freep) != 0 ==> fl == old(fl) && f == old(f)
      ensures old(freep) == 0 ==> fl == [Block(BASE, 0)]
    {
      if freep == 0 {
        hdr := hdr[BASE := Header(BASE, 0)];
        freep, fl, f := BASE, [Block(BASE, 0)], 0;
        forall x: nat ensures UnitOk(fl, alloc, arena, x) { assert UnitOk([], alloc, arena, x); }
        assert LinkOk(hdr, fl, 0);
      }
    }

    /** The n units at r are the end of block j of list l, and freep is at the block before it. */
    ghost predicate TookFrom(l: seq<Block>, j: nat, n: nat, r: nat)
      reads this
    {
      && 0 < j < |l| && n <= l[j].size && fl == Taken(l, j, n) && r == TakenBlock(l, j, n).addr + 1
      && freep == l[j - 1].addr
    }

    /** A block of at least nbytes after its header, or None when the list has none and sbrk fails. sbrk is called at
        most once. `cores` counts the calls. Memory that the process does not have is claimed if and only if sbrk is
        called and succeeds for a request beyond LIMIT. As long as it never was, no block overlaps another; afterwards
        one may (`clash`), and the model stops there. */
    method Malloc(nbytes: nat, sbrk: Option<nat>) returns (r: Option<nat>, clash: bool, ghost cores: nat)
      requires Valid() && nbytes < UINT_LIMIT && AtEnd(got, sbrk)
      modifies this
      ensures Valid() && cores <= 1
      ensures old(Sound()) ==> !clash && (Sound() <==> cores == 0 || sbrk.None? || nbytes <= LIMIT)
      ensures cores == 0 || sbrk.None? || clash ==> arena == old(arena) && got == old(got)
      ensures cores == 1 <==> !Big(old(fl), UnitsFor(nbytes))
      ensures clash <==> cores == 1 && sbrk.Some? && Overlap(old(arena), sbrk.value, CoreUnits(UnitsFor(nbytes)))
      ensures cores == 1 && sbrk.Some? && !clash ==> Cored(old(arena), old(got), sbrk.value, UnitsFor(nbytes))
      ensures r.None? <==> cores == 1 && (sbrk.None? || clash)
      ensures r.None? ==> alloc == old(alloc)
      ensures r.Some? ==>
                r.value > 0 && r.value - 1 !in old(alloc) && alloc == old(alloc)[r.value - 1 := UnitsFor(nbytes)]
      // the first block after freep that is large enough
      ensures cores == 0 ==> r.Some? && exists j: nat ::
                TookFrom(old(fl), j, UnitsFor(nbytes), r.value) && NoneBig(old(fl), old(f), j - 1, UnitsFor(nbytes))
    {
      var n := (nbytes + UNIT - 1) / UNIT + 1;
      SbrkExact(nbytes);
      Start();
      r, clash, cores := Search(n, sbrk);
    }

    /** malloc's loop: prevp is the block at index i, p the next one, and those it has passed are too small; `h` is how
        it was. */
    ghost predicate Searching(h: Before, sbrk: Option<nat>, n: nat, prevp: nat, p: nat, i: nat, cores: nat)
      reads this
    {
      && Valid() && freep != 0 && alloc == h.alloc && n > 0 && AtEnd(h.got, sbrk)
      && i < |fl| && prevp == fl[i].addr && p == NextAddr(fl, i) && NoneBig(fl, f, i, n)
      && if cores == 0 then arena == h.arena && got == h.got && fl == h.fl && f == h.f
         else cores == 1 && Grown(h.arena, h.got, sbrk, n) && Big(fl, n) && !Big(h.fl, n)
    }

    /** It is over. */
    ghost predicate Searched(h: Before, sbrk: Option<nat>, n: nat, r: Option<nat>, clash: bool, cores: nat)
      reads this
    {
      && Valid() && cores <= 1
      && (cores == 0 || sbrk.None? || clash ==> arena == h.arena && got == h.got)
      && (cores == 1 <==> !Big(h.fl, n))
      && (clash <==> cores == 1 && sbrk.Some? && Overlap(h.arena, sbrk.value, CoreUnits(n)))
      && (cores == 1 && sbrk.Some? && !clash ==> Grown(h.arena, h.got, sbrk, n))
      && (r.None? <==> cores == 1 && (sbrk.None? || clash))
      && (r.None? ==> alloc == h.alloc)
      && (r.Some? ==> r.value > 0 && r.value - 1 !in h.alloc && alloc == h.alloc[r.value - 1 := n])
      && (cores == 0 ==> r.Some? && exists j: nat :: TookFrom(h.fl, j, n, r.value) && NoneBig(h.fl, h.f, j - 1, n))
    }

    /** malloc's loop: round the circle from freep, and once more after morecore. */
    method Search(n: nat, sbrk: Option<nat>) returns (r: Option<nat>, clash: bool, ghost cores: nat)
      requires Valid() && freep != 0 && n > 0 && AtEnd(got, sbrk)
      modifies this
      ensures Searched(Before(old(arena), old(got), old(alloc), old(fl), old(f)), sbrk, n, r, clash, cores)
    {
      ghost var h := Before(arena, got, alloc, fl, f);
      cores := 0;
      ghost var i: nat := f;
      var prevp := freep;
      assert LinkOk(hdr, fl, f);
      var p := hdr[prevp].ptr;
      while true
        invariant Searching(h, sbrk, n, prevp, p, i, cores)
        decreases 1 - cores, ToGo(i, f, |fl|)
      {
        var done;
        done, r, clash, prevp, p, i, cores := Turn(h, sbrk, n, prevp, p, i, cores);
        if done { return; }
      }
    }

    /** The block fits. */
    method Found(ghost h: Before, sbrk: Option<nat>, n: nat, prevp: nat, p: nat, ghost i: nat, ghost cores: nat)
      returns (r: nat)
      requires Searching(h, sbrk, n, prevp, p, i, cores) && i + 1 < |fl| && fl[i + 1].size >= n
      modifies this
      ensures Searched(h, sbrk, n, Some(r), false, cores)
    {
      r := Take(prevp, p, n, i);
      assert cores == 0 ==> TookFrom(h.fl, i + 1, n, r);
    }

    /** The body of the loop: the block fits, or the next one is looked at. */
    method Turn(ghost h: Before, sbrk: Option<nat>, n: nat, prevp: nat, p: nat, ghost i: nat, ghost cores: nat)
      returns (done: bool, r: Option<nat>, clash: bool, prevp': nat, p': nat, ghost i': nat, ghost cores': nat)
      requires Searching(h, sbrk, n, prevp, p, i, cores)
      modifies this
      ensures done ==> Searched(h, sbrk, n, r, clash, cores')
      ensures !done ==>
                && Searching(h, sbrk, n, prevp', p', i', cores')
                && (cores < cores' || (cores' == cores && ToGo(i', f, |fl|) < old(ToGo(i, f, |fl|))))
    {
      ghost var j: nat := if i + 1 < |fl| then i + 1 else 0;
      assert LinkOk(hdr, fl, j);
      done, r, clash, i', cores' := false, None, false, j, cores;
      if hdr[p].size >= n {
        assert fl[j].size >= n;
        var q := Found(h, sbrk, n, prevp, p, i, cores);
        return true, Some(q), false, prevp, p, i, cores;
      }
      if p == freep {
        assert cores == 0 by { TurnDone(fl, f, i, n); }
        prevp', p', clash := Refill(n, sbrk, i);
        done, i', cores' := prevp' == 0, f, 1;
      } else {
        TurnMore(fl, f, i, n);
        prevp', p' := p, hdr[p].ptr;
      }
    }

    /** malloc's loop is back at freep: more memory, and on from there; or 0. */
    method Refill(n: nat, sbrk: Option<nat>, ghost i: nat) returns (prevp: nat, p: nat, clash: bool)
      requires Valid() && freep != 0 && n > 0 && AtEnd(got, sbrk)
      requires i < |fl| && NextAddr(fl, i) == freep && fl[f].size < n && NoneBig(fl, f, i, n)
      modifies this
      ensures Valid() && freep != 0 && alloc == old(alloc) && !Big(old(fl), n)
      ensures clash <==> sbrk.Some? && Overlap(old(arena), sbrk.value, CoreUnits(n))
      ensures prevp == 0 <==> sbrk.None? || clash
      ensures prevp == 0 ==> arena == old(arena) && got == old(got)
      ensures prevp != 0 ==>
                && prevp == freep && p == NextAddr(fl, f) && NoneBig(fl, f, f, n)
                && Big(fl, n) && Grown(old(arena), old(got), sbrk, n)
    {
      TurnDone(fl, f, i, n);
      prevp, clash := Morecore(n, sbrk);
      p := 0;
      if prevp != 0 {
        assert LinkOk(hdr, fl, f);
        p := hdr[prevp].ptr;
      }
    }

    /** The stores of free. */
    method Relink(p: nat, bp: nat)
      requires p in hdr && bp in hdr && p != bp && (bp + hdr[bp].size == hdr[p].ptr ==> hdr[p].ptr in hdr)
      modifies this`hdr
      ensures hdr == Lower(Upper(old(hdr), p, bp), p, bp)
    {
      var q := hdr[p].ptr;
      if bp + hdr[bp].size == q {
        hdr := hdr[bp := Header(hdr[q].ptr, hdr[bp].size + hdr[q].size)];
      } else {
        hdr := hdr[bp := hdr[bp].(ptr := q)];
      }
      if p + hdr[p].size == bp {
        hdr := hdr[p := Header(hdr[bp].ptr, hdr[p].size + hdr[bp].size)];
      } else {
        hdr := hdr[p := hdr[p].(ptr := bp)];
      }
    }
  }

  /** The first request of a program, for 2^32 - 1 bytes: malloc returns a block, of which the process has one unit. */
  method HugeRequest(start: nat) returns (h: Heap, r: Option<nat>)
    requires start > BASE
    ensures fresh(h) && h.Valid() && !h.Sound() && r.Some? && r.value > 0 && r.value - 1 in h.alloc
    ensures h.got == Units(start, 1) && h.alloc[r.value - 1] == 0x1000_0001 && h.arena == Units(start, 0x1000_0001)
    ensures !Big(h.fl, 1)
  {
    h := new Heap();
    SbrkTruncates();
    var clash;
    ghost var cores;
    r, clash, cores := h.Malloc(UINT_LIMIT - 1, Some(start));
    assert h.arena == Units(start, 0x1000_0001);
    AllUsed(h.fl, h.alloc, start, 0x1000_0001, r.value - 1);
  }

  /** The next one, whatever it asks for: the end of the process's memory is inside that block, and so is the new
      one. */
  method NextRequest(start: nat, nbytes: nat) returns (h: Heap, clash: bool)
    requires start > BASE && nbytes < UINT_LIMIT
    ensures fresh(h) && h.Valid() && clash && start + 1 in h.arena
  {
    var r;
    h, r := HugeRequest(start);
    ghost var cores;
    assert start + 1 in h.arena;
    r, clash, cores := h.Malloc(nbytes, Some(start + 1));
  }

  lemma AllUsed(fl: seq<Block>, alloc: map<nat, nat>, start: nat, n: nat, a: nat)
    requires ListOk(fl) && Partition(fl, alloc, Units(start, n)) && a in alloc && alloc[a] == n > 0
    ensures !Big(fl, 1)
  {
    assert Has(Block(a, n), a) && Has(Block(a, n), a + n - 1);
    assert UnitOk(fl, alloc, Units(start, n), a) && UnitOk(fl, alloc, Units(start, n), a + n - 1);
    assert a == start;
    forall i | 0 <= i < |fl| ensures fl[i].size < 1 {
      var x := fl[i].addr;
      assert UnitOk(fl, alloc, Units(start, n), x);
      assert Has(fl[i], x) ==> InList(fl, x) && x in Units(start, n) && Has(Block(a, n), x);
    }
  }

  /** One more than the largest int, and the largest unsigned int. */
  const INT_LIMIT: nat := 0x8000_0000
  const UINT_LIMIT: nat := 0x1_0000_0000

  /** What morecore asks for. */
  function CoreUnits(nu: nat): (n: nat)
    ensures n >= nu && n >= 4096 && (n == nu || n == 4096)
  {
    if nu < 4096 then 4096 else nu
  }

  /** The units malloc needs for nbytes: the bytes rounded up, and a header. */
  function UnitsFor(nbytes: nat): (r: nat)
    ensures nbytes <= (r - 1) * UNIT < nbytes + UNIT
  {
    (nbytes + UNIT - 1) / UNIT + 1
  }

  /** sbrk takes an int: the low 32 bits, signed. */
  function SbrkArg(bytes: nat): int {
    var low := bytes % (UINT_LIMIT);
    if low < INT_LIMIT then low else low - UINT_LIMIT
  }

  /** The argument that reaches sbrk for a block of nu units is the number of bytes it takes. */
  predicate Exact(nu: nat) {
    SbrkArg(CoreUnits(nu) * UNIT) == CoreUnits(nu) * UNIT
  }

  /** The process's memory once its end, at unit `end`, has moved by so many bytes. */
  ghost function Moved(got: set<nat>, end: nat, bytes: int): set<nat> {
    if bytes >= 0 then got + Units(end, bytes / UNIT) else set x | x in got && x < end + bytes / UNIT
  }

  /** A block of n units at the end of the process's memory is all there if and only if the end has moved as far. */
  lemma MovedSound(arena: set<nat>, got: set<nat>, end: nat, n: nat)
    requires (forall x :: x in got ==> x < end) && n > 0
    ensures arena <= got ==>
            (arena + Units(end, n) <= Moved(got, end, SbrkArg(n * UNIT)) <==> SbrkArg(n * UNIT) == n * UNIT)
  {
    var bytes := SbrkArg(n * UNIT);
    var got' := Moved(got, end, bytes);
    assert bytes <= n * UNIT && (bytes >= 0 ==> bytes / UNIT <= n) && (bytes < 0 ==> bytes / UNIT < 0);
    var last := end + n - 1;
    assert last in Units(end, n) && last !in got;
    assert n * UNIT / UNIT == n;
    if bytes != n * UNIT {
      LessUnits(n, bytes);
      assert last !in got';
    }
  }

  lemma LessUnits(n: nat, bytes: int)
    requires bytes == SbrkArg(n * UNIT) != n * UNIT
    ensures bytes / UNIT < n
  {
  }

  /** The largest request morecore can pass on: two units short of 2^31 bytes. */
  const LIMIT: nat := 2147483616

  /** For an unsigned 32-bit request, sbrk is asked for what morecore then claims exactly up to that limit. */
  lemma SbrkExact(nbytes: nat)
    requires nbytes < UINT_LIMIT
    ensures Exact(UnitsFor(nbytes)) <==> nbytes <= LIMIT
  {
  }

  /** A request for 2^32 - 1 bytes makes morecore ask for 16 bytes and enter 2^28 + 1 units in its header. */
  lemma SbrkTruncates()
    ensures SbrkArg(CoreUnits(UnitsFor(UINT_LIMIT - 1)) * UNIT) == UNIT
    ensures CoreUnits(UnitsFor(UINT_LIMIT - 1)) == 0x1000_0001
  {
  }

  /** A block of n units at a would take in a unit of the arena. */
  predicate Overlap(arena: set<nat>, a: nat, n: nat) {
    exists x :: x in arena && a <= x < a + n
  }

  function Units(a: nat, n: nat): set<nat> {
    set x: nat | a <= x < a + n && Has(Block(a, n), x)
  }

  ghost predicate Big(fl: seq<Block>, n: nat) {
    exists i :: 0 <= i < |fl| && fl[i].size >= n
  }

  lemma GrownLinks(hdr: map<nat, Header>, fl: seq<Block>, alloc: map<nat, nat>, arena: set<nat>, a: nat, n: nat,
                   h: Header)
    requires ListOk(fl) && LinkedBut(hdr, fl, -1) && Partition(fl, alloc, arena) && a > BASE && n > 0
             && !Overlap(arena, a, n)
    ensures LinkedBut(hdr[a := h], fl, -1)
  {
    var hdr' := hdr[a := h];
    forall i | 0 <= i < |fl| ensures LinkOk(hdr', fl, i) {
      assert LinkOk(hdr, fl, i);
      if i > 0 { assert Has(fl[i], fl[i].addr) && UnitOk(fl, alloc, arena, fl[i].addr); }
    }
  }

  /** New memory apart from everything else, as one block in use. */
  lemma GrownPartition(fl: seq<Block>, alloc: map<nat, nat>, arena: set<nat>, a: nat, n: nat)
    requires Partition(fl, alloc, arena) && a > BASE && n > 0 && !Overlap(arena, a, n)
    ensures a !in alloc && Partition(fl, alloc[a := n], arena + Units(a, n))
  {
    forall c {:trigger alloc[c]} | c in alloc ensures if c < a then c + alloc[c] <= a else a + n <= c {
      var x := if c < a < c + alloc[c] then a else c;
      assert Has(Block(c, alloc[c]), x) && UnitOk(fl, alloc, arena, x);
    }
    var alloc', arena' := alloc[a := n], arena + Units(a, n);
    forall x: nat ensures UnitOk(fl, alloc', arena', x) {
      assert UnitOk(fl, alloc, arena, x);
      InUseWith(alloc, a, n, x);
    }
  }

  lemma InsertedBig(fl: seq<Block>, k: nat, b: Block)
    requires k < |fl|
    ensures Big(Inserted(fl, k, b), b.size)
  {
    var l := Placed(fl, k, b);
    PlacedIs(fl, k, b);
    UpperIs(l, k);
    var l1 := Merged(l, k + 1);
    var r := Merged(l1, k);
    assert r[if Touch(l1, k) then k else k + 1].size >= b.size;
  }

  /** malloc leaves the headers of blocks in use alone, and gives its own block one. */
  lemma CarvedHeaders(hdr: map<nat, Header>, fl: seq<Block>, alloc: map<nat, nat>, arena: set<nat>, i: nat, n: nat)
    requires ListOk(fl) && Partition(fl, alloc, arena) && i + 1 < |fl| && 0 < n <= fl[i + 1].size
    requires fl[i].addr in hdr && fl[i + 1].addr in hdr && hdr[fl[i + 1].addr].size == fl[i + 1].size
    requires forall a :: a in alloc ==> a in hdr && hdr[a].size == alloc[a]
    ensures var h, q := Carved(hdr, fl[i].addr, fl[i + 1].addr, n), TakenBlock(fl, i + 1, n).addr;
            && (forall a :: a in alloc ==> a in h && h[a].size == alloc[a]) && q in h && h[q].size == n
  {
    var h, q := Carved(hdr, fl[i].addr, fl[i + 1].addr, n), TakenBlock(fl, i + 1, n).addr;
    Rising(fl, i, i + 1);
    TakenPartition(fl, alloc, arena, i + 1, n);
    forall a | a in alloc ensures a in h && h[a].size == alloc[a] {
      NotListed(fl, alloc, arena, a, i);
      NotListed(fl, alloc, arena, a, i + 1);
    }
  }

  /** Index j has been passed on the way from f to i round the circle. */
  predicate Passed(f: nat, i: nat, j: nat) {
    if f <= i then f < j <= i else j > f || j <= i
  }

  ghost predicate NoneBig(fl: seq<Block>, f: nat, i: nat, n: nat) {
    forall j :: 0 <= j < |fl| && Passed(f, i, j) ==> fl[j].size < n
  }

  /** Back at freep: every block has been looked at. */
  lemma TurnDone(fl: seq<Block>, f: nat, i: nat, n: nat)
    requires ListOk(fl) && f < |fl| && i < |fl| && NoneBig(fl, f, i, n) && NextAddr(fl, i) == fl[f].addr
             && fl[f].size < n
    ensures !Big(fl, n)
  {
    var k: nat := if i + 1 < |fl| then i + 1 else 0;
    if k < f { Rising(fl, k, f); }
    if f < k { Rising(fl, f, k); }
    assert forall j :: 0 <= j < |fl| ==> j == f || Passed(f, i, j);
  }

  lemma TurnMore(fl: seq<Block>, f: nat, i: nat, n: nat)
    requires ListOk(fl) && f < |fl| && i < |fl| && NoneBig(fl, f, i, n) && NextAddr(fl, i) != fl[f].addr
    requires fl[if i + 1 < |fl| then i + 1 else 0].size < n
    ensures var k := if i + 1 < |fl| then i + 1 else 0;
            NoneBig(fl, f, k, n) && (if k < f then f - k else |fl| - k + f) < (if i < f then f - i else |fl| - i + f)
  {
    var k := if i + 1 < |fl| then i + 1 else 0;
    assert k != f;
    forall j | 0 <= j < |fl| && Passed(f, k, j) ensures fl[j].size < n { assert j == k || Passed(f, i, j); }
  }

  /** The two stores of free: the block joined to the one above it, then the one below joined to it. */
  function Upper(hdr: map<nat, Header>, p: nat, bp: nat): map<nat, Header>
    requires p in hdr && bp in hdr && (bp + hdr[bp].size == hdr[p].ptr ==> hdr[p].ptr in hdr)
  {
    var q := hdr[p].ptr;
    if bp + hdr[bp].size == q then hdr[bp := Header(hdr[q].ptr, hdr[bp].size + hdr[q].size)]
        else hdr[bp := hdr[bp].(ptr := q)]
  }

  function Lower(hdr: map<nat, Header>, p: nat, bp: nat): map<nat, Header>
    requires p in hdr && bp in hdr
  {
    if p + hdr[p].size == bp then hdr[p := Header(hdr[bp].ptr, hdr[p].size + hdr[bp].size)]
        else hdr[p := hdr[p].(ptr := bp)]
  }

  lemma UpperLinks(hdr: map<nat, Header>, fl: seq<Block>, k: nat, b: Block)
    requires ListOk(fl) && Between(fl, k, b) && LinkedBut(hdr, fl, -1) && b.addr in hdr && hdr[b.addr].size == b.size
    ensures fl[k].addr in hdr && (b.addr + b.size == hdr[fl[k].addr].ptr ==> hdr[fl[k].addr].ptr in hdr)
    ensures LinkedBut(Upper(hdr, fl[k].addr, b.addr), Merged(Placed(fl, k, b), k + 1), k)
  {
    var l := Placed(fl, k, b);
    FreePlace(fl, l, k, b);
    assert LinkOk(hdr, fl, k);
    PlacedLinks(hdr, fl, k, b);
    var q := hdr[fl[k].addr].ptr;
    if b.addr + b.size == q {
      assert Touch(l, k + 1);
      assert LinkOk(hdr, fl, k + 1);
      var h := hdr[b.addr := Header(q, b.size)];
      MergedLinks(h, l, k + 1, k);
      assert Upper(hdr, fl[k].addr, b.addr) == h[b.addr := Header(h[q].ptr, b.size + l[k + 2].size)];
    }
  }

  lemma LowerLinks(hdr: map<nat, Header>, l: seq<Block>, k: nat)
    requires Sized(l) && Ordered(l) && k + 1 < |l| && LinkedBut(hdr, l, k) && (Touch(l, k) ==> k > 0)
    requires l[k].addr in hdr && hdr[l[k].addr].size == l[k].size
    ensures l[k + 1].addr in hdr && LinkedBut(Lower(hdr, l[k].addr, l[k + 1].addr), Merged(l, k), -1)
  {
    assert LinkOk(hdr, l, k + 1);
    FixedLink(hdr, l, k);
    var p, bp := l[k].addr, l[k + 1].addr;
    Rising(l, k, k + 1);
    var h := hdr[p := Header(bp, l[k].size)];
    if Touch(l, k) {
      MergedLinks(h, l, k, -1);
      assert Lower(hdr, p, bp) == h[p := Header(h[bp].ptr, l[k].size + l[k + 1].size)];
    } else {
      assert Lower(hdr, p, bp) == h;
    }
  }

  lemma FreedLinks(hdr: map<nat, Header>, fl: seq<Block>, k: nat, b: Block)
    requires ListOk(fl) && Between(fl, k, b) && LinkedBut(hdr, fl, -1) && b.addr in hdr && hdr[b.addr].size == b.size
    ensures fl[k].addr in hdr && (b.addr + b.size == hdr[fl[k].addr].ptr ==> hdr[fl[k].addr].ptr in hdr)
    ensures LinkedBut(Lower(Upper(hdr, fl[k].addr, b.addr), fl[k].addr, b.addr), Inserted(fl, k, b), -1)
  {
    var l := Placed(fl, k, b);
    UpperLinks(hdr, fl, k, b);
    FreePlace(fl, l, k, b);
    MergeStep(l, k + 1, k);
    UpperIs(l, k);
    FirstStays(l, k);
    assert LinkOk(hdr, fl, k);
    LowerLinks(Upper(hdr, fl[k].addr, b.addr), Merged(l, k + 1), k);
  }

  /** free only writes the headers of the freed block and of free blocks. */
  lemma FreedHeaders(hdr: map<nat, Header>, alloc: map<nat, nat>, arena: set<nat>, fl: seq<Block>, k: nat, bp: nat)
    requires ListOk(fl) && Partition(fl, alloc, arena) && k < |fl| && fl[k].addr in hdr && bp in hdr && bp in alloc
    requires bp + hdr[bp].size == hdr[fl[k].addr].ptr ==> hdr[fl[k].addr].ptr in hdr
    requires forall a :: a in alloc ==> a in hdr && hdr[a].size == alloc[a]
    ensures var h := Lower(Upper(hdr, fl[k].addr, bp), fl[k].addr, bp);
            forall a :: a in alloc && a != bp ==> a in h && h[a].size == alloc[a]
  {
    forall a | a in alloc ensures a != fl[k].addr { NotListed(fl, alloc, arena, a, k); }
  }

  lemma InsertedAt(fl: seq<Block>, k: nat, b: Block)
    requires k < |fl|
    ensures k < |Inserted(fl, k, b)| && Inserted(fl, k, b)[k].addr == fl[k].addr
  {
    var l := Placed(fl, k, b);
    PlacedIs(fl, k, b);
    UpperIs(l, k);
    LowerIs(Merged(l, k + 1), k);
  }

  /** The list with b in it, before merging. */
  lemma FreePlace(fl: seq<Block>, l: seq<Block>, k: nat, b: Block)
    requires ListOk(fl) && Between(fl, k, b) && l == Placed(fl, k, b)
    ensures Sized(l) && Ordered(l) && k + 1 < |l| && l[k] == fl[k] && l[k + 1] == b
    ensures forall j {:trigger Gap(l, j)} :: 0 <= j < |l| && j != k && j != k + 1 ==> Gap(l, j)
    ensures k + 1 < |fl| ==> k + 2 < |l| && l[k + 2] == fl[k + 1]
    ensures k + 1 == |fl| ==> k + 2 == |l|
  {
    PlacedIs(fl, k, b);
    PlacedOk(fl, l, k, b);
  }

  lemma UpperIs(l: seq<Block>, k: nat)
    requires k + 1 < |l|
    ensures var l1 := Merged(l, k + 1); k + 1 < |l1| && l1[k] == l[k] && l1[k + 1].addr == l[k + 1].addr
    ensures Merged(l, k + 1)[k + 1].size == if Touch(l, k + 1) then l[k + 1].size + l[k + 2].size else l[k + 1].size
  {
  }

  lemma LowerIs(l: seq<Block>, k: nat)
    requires k + 1 < |l|
    ensures k < |Merged(l, k)| && Merged(l, k)[k].addr == l[k].addr
  {
  }

  /** The last block below bp: where the search ends. */
  ghost function LastBelow(fl: seq<Block>, bp: nat): (k: nat)
    requires ListOk(fl) && bp > BASE
    ensures k < |fl| && fl[k].addr < bp && (k + 1 < |fl| ==> bp <= fl[k + 1].addr)
  {
    LastBelowFrom(fl, bp, 0)
  }

  ghost function LastBelowFrom(fl: seq<Block>, bp: nat, i: nat): (k: nat)
    requires i < |fl| && fl[i].addr < bp
    ensures k < |fl| && fl[k].addr < bp && (k + 1 < |fl| ==> bp <= fl[k + 1].addr)
    decreases |fl| - i
  {
    if i + 1 < |fl| && fl[i + 1].addr < bp then LastBelowFrom(fl, bp, i + 1) else i
  }

  lemma SpotOrder(fl: seq<Block>, bp: nat, goal: nat, k: nat)
    requires ListOk(fl) && goal < |fl| && k < |fl| && fl[goal].addr < bp
             && (goal + 1 < |fl| ==> bp <= fl[goal + 1].addr)
    ensures k <= goal ==> fl[k].addr < bp
    ensures k > goal ==> bp <= fl[k].addr
    ensures k + 1 < |fl| ==> fl[k].addr < fl[k + 1].addr
    ensures fl[0].addr <= fl[k].addr
  {
    if k < goal { Rising(fl, k, goal); }
    if k > goal + 1 { Rising(fl, goal + 1, k); }
    if k + 1 < |fl| { Rising(fl, k, k + 1); }
    if k > 0 { Rising(fl, 0, k); }
  }
}
