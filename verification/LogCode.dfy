/** The sequential code of kernel/log.c: log_write's absorption, the header, write_log,
    install_trans, commit and recovery. The methods return, as `trace`, the disk after each of their
    bwrites: a claim about all of a trace is a claim about a crash at any moment. */
module LogCode {
  import opened DiskLayout

  datatype LogWriteResult = Logged(pinned: bool) | TooBigTransaction | OutsideTransaction

  class KernelLog {
    const layout: Layout
    var disk: Disk
    /** What bread returns for each block; see LogTheorems.ReadsLogical. */
    var cached: Disk
    const block: array<int>
    var n: nat
    var outstanding: nat

    ghost predicate Valid()
      reads this, block
    {
      && layout.Valid() && |disk| == |cached| == layout.nblocks
      && block.Length == LOGSIZE && n <= LOGSIZE
      && NoDup(block[..n]) && (forall j :: 0 <= j < n ==> layout.Home(block[j]))
      && (forall b :: layout.start <= b < layout.start + layout.size ==> cached[b] == disk[b])
    }

    function Entries(): seq<int>
      requires n <= block.Length
      reads this, block
    {
      block[..n]
    }

    method Bwrite(b: nat, data: Block)
      requires b < |disk| == |cached|
      modifies this`disk, this`cached
      ensures disk == old(disk)[b := data] && cached == old(cached)[b := data]
      ensures OneWrite(old(disk), disk)
    {
      disk := disk[b := data];
      assert disk == old(disk)[b := disk[b]];
      cached := cached[b := data];
    }

    /** log_write. */
    method LogWrite(b: nat) returns (r: LogWriteResult)
      requires Valid() && layout.Home(b)
      modifies this`n, block
      ensures Valid()
      ensures r.TooBigTransaction? <==> old(n) >= LOGSIZE || old(n) >= layout.size - 1
      ensures r.OutsideTransaction? ==> outstanding < 1
      ensures r.Logged? ==> outstanding >= 1 && r.pinned == (b !in old(Entries()))
      ensures Entries() == if r.Logged? && r.pinned then old(Entries()) + [b] else old(Entries())
    {
      if n >= LOGSIZE || n >= layout.size - 1 {
        return TooBigTransaction;
      }
      if outstanding < 1 {
        return OutsideTransaction;
      }
      var i := 0;
      while i < n && block[i] != b
        invariant 0 <= i <= n && b !in block[..i]
      {
        i := i + 1;
      }
      r := Logged(i == n);
      block[i] := b;
      if i == n {
        n := n + 1;
      }
    }

    /** read_head. */
    method ReadHead()
      requires layout.Valid() && |disk| == |cached| == layout.nblocks && block.Length == LOGSIZE
      requires cached[layout.start] == disk[layout.start] && 0 <= HeadSize(disk[layout.start]) <= LOGSIZE
      modifies this`n, block
      ensures n <= LOGSIZE && Entries() == DecodeHead(disk[layout.start])
    {
      var lh := cached[layout.start];
      n := HeadSize(lh);
      var i := 0;
      while i < n
        invariant 0 <= i <= n == HeadSize(lh)
        invariant forall j :: 0 <= j < i ==> block[j] == HeadEntry(lh, j)
      {
        block[i] := HeadEntry(lh, i);
        i := i + 1;
      }
    }

    /** write_head. */
    method WriteHead()
      requires Valid()
      modifies this`disk, this`cached
      ensures Valid()
      ensures disk == old(disk)[layout.start := EncodeHead(old(disk)[layout.start], Entries())]
      ensures cached == old(cached)[layout.start := disk[layout.start]] && OneWrite(old(disk), disk)
    {
      var hb := cached[layout.start].w;
      ghost var was := hb;
      hb := hb[0 := n];
      var i := 0;
      while i < n
        invariant 0 <= i <= n && |hb| == WORDS && hb[0] == n
        invariant forall j :: 0 <= j < i ==> hb[j + 1] == block[j]
        invariant hb[i + 1..] == was[i + 1..]
      {
        hb := hb[i + 1 := block[i]];
        i := i + 1;
      }
      assert hb == [n] + block[..n] + was[n + 1..];
      Bwrite(layout.start, Words(hb));
    }

    /** One round of install_trans. */
    method InstallOne(tail: nat, ghost committed: Disk, ghost d0: Disk, ghost trace: seq<Disk>)
      requires Valid() && |committed| == layout.nblocks && tail < n
      requires Recovers(layout, disk, committed) && HeadIs(disk[layout.start], Entries())
      requires Traced(layout, d0, trace, disk, committed)
      modifies this`disk, this`cached
      ensures Valid() && disk[layout.start] == old(disk)[layout.start] && Recovers(layout, disk, committed)
      ensures cached == old(cached)[block[tail] := committed[block[tail]]]
      ensures disk == old(disk)[block[tail] := committed[block[tail]]]
      ensures Traced(layout, d0, trace + [disk], disk, committed)
    {
      InstallRecovers(layout, disk, committed, tail);
      assert HeadEntry(disk[layout.start], tail) == block[tail] && block[tail] in Entries();
      var lbuf := cached[layout.start + tail + 1];
      ghost var d := disk;
      Bwrite(block[tail], lbuf);
      TraceNext(layout, d0, trace, d, disk, committed);
    }

    /** install_trans: every logged block goes home; a crash on the way changes nothing for recovery. */
    method InstallTrans(ghost committed: Disk) returns (ghost trace: seq<Disk>)
      requires Valid() && |committed| == layout.nblocks
      requires Recovers(layout, disk, committed) && HeadIs(disk[layout.start], Entries())
      modifies this`disk, this`cached
      ensures Valid() && disk[layout.start] == old(disk)[layout.start]
      ensures Recovers(layout, disk, committed)
      ensures forall b :: layout.Home(b) ==> disk[b] == committed[b]
      ensures forall b :: layout.Home(b) ==> cached[b] == if b in Entries() then disk[b] else old(cached)[b]
      ensures Traced(layout, old(disk), trace, disk, committed)
    {
      trace := [];
      ghost var bs := Entries();
      var tail := 0;
      while tail < n
        invariant 0 <= tail <= n && Valid()
        invariant disk[layout.start] == old(disk)[layout.start] && Recovers(layout, disk, committed)
        invariant Agree(disk, committed, bs, tail) && Agree(cached, committed, bs, tail)
        invariant Apart(layout, cached, old(cached), bs) && Traced(layout, old(disk), trace, disk, committed)
      {
        AgreeNext(disk, committed, bs, tail);
        AgreeNext(cached, committed, bs, tail);
        ApartNext(layout, cached, old(cached), bs, tail, committed[bs[tail]]);
        InstallOne(tail, committed, old(disk), trace);
        trace := trace + [disk];
        tail := tail + 1;
      }
      AllInstalled(layout, disk, committed, bs);
    }

    /** One round of write_log. */
    method LogOne(tail: nat, ghost d0: Disk, ghost trace: seq<Disk>)
      requires Valid() && tail < n && HeadIs(disk[layout.start], []) && |d0| == layout.nblocks
      requires forall b :: layout.Home(b) ==> disk[b] == d0[b]
      requires Traced(layout, d0, trace, disk, d0)
      modifies this`disk, this`cached
      ensures Valid() && disk[layout.start] == old(disk)[layout.start]
      ensures disk == old(disk)[layout.start + 1 + tail := old(cached)[block[tail]]]
      ensures cached == old(cached)[layout.start + 1 + tail := old(cached)[block[tail]]]
      ensures Traced(layout, d0, trace + [disk], disk, d0)
    {
      var from := cached[block[tail]];
      ghost var d := disk;
      Bwrite(layout.start + tail + 1, from);
      EmptyHeadRecovers(layout, disk, d0);
      TraceNext(layout, d0, trace, d, disk, d0);
    }

    /** write_log: the cached contents of every logged block go to the log; no home block changes. */
    method WriteLog() returns (ghost trace: seq<Disk>)
      requires Valid() && HeadIs(disk[layout.start], [])
      modifies this`disk, this`cached
      ensures Valid() && disk[layout.start] == old(disk)[layout.start]
      ensures forall j :: 0 <= j < n ==> disk[layout.start + 1 + j] == cached[block[j]]
      ensures forall b :: layout.Home(b) ==> disk[b] == old(disk)[b] && cached[b] == old(cached)[b]
      ensures Traced(layout, old(disk), trace, disk, old(disk))
    {
      trace := [];
      ghost var bs := Entries();
      var tail := 0;
      while tail < n
        invariant 0 <= tail <= n && Valid() && disk[layout.start] == old(disk)[layout.start]
        invariant Copied(layout, disk, cached, old(disk), old(cached), bs, tail)
        invariant Traced(layout, old(disk), trace, disk, old(disk))
      {
        CopiedNext(layout, disk, cached, old(disk), old(cached), bs, tail);
        LogOne(tail, old(disk), trace);
        trace := trace + [disk];
        tail := tail + 1;
      }
    }

    /** What commit and recovery share: install_trans, n = 0, write_head. */
    method InstallAndClear(ghost committed: Disk) returns (ghost trace: seq<Disk>)
      requires Valid() && |committed| == layout.nblocks
      requires Recovers(layout, disk, committed) && HeadIs(disk[layout.start], Entries())
      requires forall b :: layout.Home(b) && b !in Entries() ==> cached[b] == disk[b]
      modifies this`disk, this`cached, this`n
      ensures Valid() && n == 0 && HeadIs(disk[layout.start], [])
      ensures forall b :: layout.Home(b) ==> disk[b] == cached[b] == committed[b]
      ensures Traced(layout, old(disk), trace, disk, committed) && Recovers(layout, disk, committed)
    {
      ghost var bs := Entries();
      ghost var d0 := disk;
      assert forall b :: layout.Home(b) && b !in bs ==> cached[b] == committed[b] by {
        NotLogged(layout, d0, committed, bs);
      }
      trace := InstallTrans(committed);
      n := 0;
      ghost var mid := disk;
      WriteHead();
      HeadRoundTrip(mid[layout.start], []);
      EmptyHeadRecovers(layout, disk, committed);
      TraceNext(layout, old(disk), trace, mid, disk, committed);
      trace := trace + [disk];
    }

    /** commit. A crash at any point of `before` recovers the old state, at any point of `after` the new one. */
    method Commit() returns (ghost before: seq<Disk>, ghost after: seq<Disk>)
      requires Valid() && HeadIs(disk[layout.start], [])
      requires forall b :: layout.Home(b) && b !in Entries() ==> cached[b] == disk[b]
      modifies this`disk, this`cached, this`n
      ensures Valid() && n == 0 && HeadIs(disk[layout.start], [])
      ensures forall b :: layout.Home(b) ==> disk[b] == cached[b] == old(cached)[b]
      ensures AllRecover(layout, before, old(disk)) && AllRecover(layout, after, old(cached))
      ensures Writes(old(disk), before + after, disk) && Recovers(layout, disk, old(cached))
    {
      before, after := [], [];
      if n > 0 {
        before := WriteLog();
        ghost var mid := disk;
        after := CommitLogged(old(cached));
        WritesAppend(old(disk), before, mid, after, disk);
      } else {
        EmptyHeadRecovers(layout, disk, old(cached));
      }
    }

    /** The rest of commit, once the blocks are in the log: the header commits, and is cleared after the
        installation. */
    method CommitLogged(ghost committed: Disk) returns (ghost after: seq<Disk>)
      requires Valid() && |committed| == layout.nblocks && forall b :: layout.Home(b) ==> cached[b] == committed[b]
      requires forall j :: 0 <= j < n ==> disk[layout.start + 1 + j] == cached[block[j]]
      requires forall b :: layout.Home(b) && b !in Entries() ==> cached[b] == disk[b]
      modifies this`disk, this`cached, this`n
      ensures Valid() && n == 0 && HeadIs(disk[layout.start], [])
      ensures forall b :: layout.Home(b) ==> disk[b] == cached[b] == committed[b]
      ensures AllRecover(layout, after, committed) && Writes(old(disk), after, disk)
              && Recovers(layout, disk, committed)
    {
      CommitHead(committed);
      ghost var head := disk;
      after := InstallAndClear(committed);
      after := [head] + after;
      assert Writes(old(disk), after, disk);
    }

    /** write_head, the moment of the commit. */
    method CommitHead(ghost committed: Disk)
      requires Valid() && |committed| == layout.nblocks && forall b :: layout.Home(b) ==> cached[b] == committed[b]
      requires forall j :: 0 <= j < n ==> disk[layout.start + 1 + j] == cached[block[j]]
      requires forall b :: layout.Home(b) && b !in Entries() ==> cached[b] == disk[b]
      modifies this`disk, this`cached
      ensures Valid() && Entries() == old(Entries()) && HeadIs(disk[layout.start], Entries())
              && Recovers(layout, disk, committed)
      ensures forall b :: layout.Home(b) ==> disk[b] == old(disk)[b] && cached[b] == old(cached)[b]
      ensures Writes(old(disk), [disk], disk)
    {
      HeadCommits(layout, disk, committed, Entries());
      WriteHead();
    }

    /** recover_from_log: any crash on the way can be recovered from again, with the same result. */
    method RecoverFromLog(ghost committed: Disk) returns (ghost trace: seq<Disk>)
      requires layout.Valid() && |disk| == |cached| == |committed| == layout.nblocks && block.Length == LOGSIZE
      requires cached == disk && Recovers(layout, disk, committed)
      modifies this`disk, this`cached, this`n, block
      ensures Valid() && n == 0 && HeadIs(disk[layout.start], [])
      ensures forall b :: layout.Home(b) ==> disk[b] == cached[b] == committed[b]
      ensures Traced(layout, old(disk), trace, disk, committed) && Recovers(layout, disk, committed)
    {
      ReadHead();
      trace := InstallAndClear(committed);
    }
  }

  /** From every disk of the trace, recovery rebuilds `committed`. */
  ghost predicate AllRecover(l: Layout, trace: seq<Disk>, committed: Disk)
    requires l.Valid() && |committed| == l.nblocks
  {
    forall i :: 0 <= i < |trace| ==> |trace[i]| == l.nblocks && Recovers(l, trace[i], committed)
  }

  /** d' is d after one bwrite. */
  ghost predicate OneWrite(d: Disk, d': Disk) {
    |d| == |d'| && exists b :: 0 <= b < |d| && d' == d[b := d'[b]]
  }

  /** The trace leads from d0 to d one bwrite at a time, so it leaves out no state of the disk. */
  ghost predicate Writes(d0: Disk, trace: seq<Disk>, d: Disk)
    decreases |trace|
  {
    if trace == [] then d == d0 else OneWrite(d0, trace[0]) && Writes(trace[0], trace[1..], d)
  }

  lemma {:induction false} WritesAppend(d0: Disk, a: seq<Disk>, d1: Disk, b: seq<Disk>, d2: Disk)
    requires Writes(d0, a, d1) && Writes(d1, b, d2)
    ensures Writes(d0, a + b, d2)
    decreases |a|
  {
    if a == [] {
      assert a + b == b;
    } else {
      WritesAppend(a[0], a[1..], d1, b, d2);
      assert (a + b)[1..] == a[1..] + b;
    }
  }

  ghost predicate Traced(l: Layout, d0: Disk, trace: seq<Disk>, d: Disk, committed: Disk)
    requires l.Valid() && |committed| == l.nblocks
  {
    AllRecover(l, trace, committed) && Writes(d0, trace, d)
  }

  lemma TraceNext(l: Layout, d0: Disk, trace: seq<Disk>, d1: Disk, d: Disk, committed: Disk)
    requires l.Valid() && |d| == |committed| == l.nblocks
    requires Traced(l, d0, trace, d1, committed) && Recovers(l, d, committed) && OneWrite(d1, d)
    ensures Traced(l, d0, trace + [d], d, committed)
  {
    assert Writes(d1, [d], d);
    WritesAppend(d0, trace, d1, [d], d);
  }

  /** d and d' agree on the first n of the blocks bs. */
  ghost predicate Agree(d: Disk, d': Disk, bs: seq<int>, n: nat) {
    n <= |bs| && forall j :: 0 <= j < n ==> 0 <= bs[j] < |d| && bs[j] < |d'| && d[bs[j]] == d'[bs[j]]
  }

  /** The two are the same at the home blocks that are not in bs. */
  ghost predicate Apart(l: Layout, d: Disk, d': Disk, bs: seq<int>) {
    |d| == |d'| == l.nblocks && forall b :: l.Home(b) && b !in bs ==> 0 <= b < l.nblocks && d[b] == d'[b]
  }

  lemma ApartNext(l: Layout, d: Disk, d': Disk, bs: seq<int>, k: nat, x: Block)
    requires Apart(l, d, d', bs) && k < |bs| && 0 <= bs[k] < |d|
    ensures Apart(l, d[bs[k] := x], d', bs)
  {
  }

  /** write_log after k blocks: they are in the log, and the home blocks are as they were, on disk and in the cache. */
  ghost predicate Copied(l: Layout, d: Disk, c: Disk, d0: Disk, c0: Disk, bs: seq<int>, k: nat) {
    && |d| == |c| == |d0| == |c0| == l.nblocks && l.Valid() && |bs| <= LOGSIZE && k <= |bs|
    && (forall j :: 0 <= j < |bs| ==> l.Home(bs[j]))
    && (forall j :: 0 <= j < k ==> d[l.start + 1 + j] == c[bs[j]])
    && (forall b :: l.Home(b) ==> d[b] == d0[b] && c[b] == c0[b])
  }

  lemma CopiedNext(l: Layout, d: Disk, c: Disk, d0: Disk, c0: Disk, bs: seq<int>, k: nat)
    requires Copied(l, d, c, d0, c0, bs, k) && k < |bs|
    ensures var x := c[bs[k]];
            Copied(l, d[l.start + 1 + k := x], c[l.start + 1 + k := x], d0, c0, bs, k + 1)
  {
  }

  lemma AgreeNext(d: Disk, d': Disk, bs: seq<int>, n: nat)
    requires NoDup(bs) && n < |bs| && 0 <= bs[n] < |d| && bs[n] < |d'| && Agree(d, d', bs, n)
    ensures Agree(d[bs[n] := d'[bs[n]]], d', bs, n + 1)
  {
  }

  lemma AllInstalled(l: Layout, d: Disk, committed: Disk, bs: seq<int>)
    requires l.Valid() && |d| == |committed| == l.nblocks && Recovers(l, d, committed) && HeadIs(d[l.start], bs)
    requires forall j :: 0 <= j < |bs| ==> l.Home(bs[j]) && d[bs[j]] == committed[bs[j]]
    ensures forall b :: l.Home(b) ==> d[b] == committed[b]
  {
    forall b | l.Home(b) ensures d[b] == committed[b] {
      if HeadNames(d[l.start], b) {
        var j :| 0 <= j < |bs| && HeadEntry(d[l.start], j) == b;
        assert bs[j] == b;
      }
    }
  }

  lemma NotLogged(l: Layout, d: Disk, committed: Disk, bs: seq<int>)
    requires l.Valid() && |d| == |committed| == l.nblocks && Recovers(l, d, committed) && HeadIs(d[l.start], bs)
    ensures forall b :: l.Home(b) && b !in bs ==> d[b] == committed[b]
  {
  }

  lemma EmptyHeadRecovers(l: Layout, d: Disk, committed: Disk)
    requires l.Valid() && |d| == |committed| == l.nblocks && HeadIs(d[l.start], [])
    requires forall b :: l.Home(b) ==> d[b] == committed[b]
    ensures Recovers(l, d, committed)
  {
  }

  /** What write_head makes of the disk. */
  lemma HeadCommits(l: Layout, d: Disk, committed: Disk, bs: seq<int>)
    requires l.Valid() && |d| == |committed| == l.nblocks && |bs| <= LOGSIZE && NoDup(bs) && d[l.start].Words?
    requires forall j :: 0 <= j < |bs| ==> l.Home(bs[j]) && d[l.start + 1 + j] == committed[bs[j]]
    requires forall b :: l.Home(b) && b !in bs ==> d[b] == committed[b]
    ensures var d' := d[l.start := EncodeHead(d[l.start], bs)]; HeadIs(d'[l.start], bs) && Recovers(l, d', committed)
  {
    HeadRoundTrip(d[l.start], bs);
    FullHeadRecovers(l, d[l.start := EncodeHead(d[l.start], bs)], committed, bs);
  }

  lemma FullHeadRecovers(l: Layout, d: Disk, committed: Disk, bs: seq<int>)
    requires l.Valid() && |d| == |committed| == l.nblocks && HeadIs(d[l.start], bs) && NoDup(bs)
    requires forall j :: 0 <= j < |bs| ==> l.Home(bs[j]) && d[l.start + 1 + j] == committed[bs[j]]
    requires forall b :: l.Home(b) && b !in bs ==> d[b] == committed[b]
    ensures Recovers(l, d, committed)
  {
    var h := d[l.start];
    forall b | l.Home(b) && !HeadNames(h, b) ensures b !in bs {
      assert forall j :: 0 <= j < |bs| ==> HeadEntry(h, j) == bs[j];
    }
  }
}
