/** The code of kernel/virtio_disk.c on its own data: allocating and freeing descriptors in place, filling in a request,
    and draining the used ring. */
module VirtioDriver {
  import opened Params
  import opened VirtioRing
  import opened VirtioInvariant

  /** alloc_desc starts from 0 each time; a descriptor just taken is skipped. */
  lemma {:induction false} FirstFreeAfter(free: seq<bool>, a: nat, from: nat)
    requires FirstFree(free, 0) == Some(a) && from <= a
    ensures FirstFree(free[a := false], from) == FirstFree(free, a + 1)
    decreases a - from
  {
    if from == a {
      SameAbove(free, free[a := false], a + 1);
    } else {
      FirstFreeAfter(free, a, from + 1);
    }
  }

  lemma {:induction false} SameAbove(f: seq<bool>, g: seq<bool>, from: nat)
    requires |f| == |g| && forall j :: from <= j < |f| ==> f[j] == g[j]
    ensures FirstFree(f, from) == FirstFree(g, from)
    decreases |f| - from
  {
    if from < |f| { SameAbove(f, g, from + 1); }
  }

  /** The first free descriptor, searched past the ones known to be taken. */
  lemma {:induction false} SkipTaken(free: seq<bool>, lo: nat, hi: nat)
    requires lo <= hi <= |free| && forall j :: lo <= j < hi ==> !free[j]
    ensures FirstFree(free, lo) == FirstFree(free, hi)
    decreases hi - lo
  {
    if lo < hi { SkipTaken(free, lo + 1, hi); }
  }

  lemma Alloc3Is(free: seq<bool>, a: nat, b: Option<nat>, c: Option<nat>)
    requires FirstFree(free, 0) == Some(a) && b == FirstFree(free[a := false], 0)
    requires b.Some? ==> c == FirstFree(free[a := false][b.value := false], 0)
    ensures b.None? ==> Alloc3(free) == None
    ensures b.Some? && c.None? ==> Alloc3(free) == None
    ensures b.Some? && c.Some? ==> Alloc3(free) == Some((a, b.value, c.value))
  {
    FirstFreeAfter(free, a, 0);
    if b.Some? {
      FirstFreeAfter(free[a := false], b.value, 0);
      SameAbove(free, free[a := false], b.value + 1);
    }
  }

  /** How free_desc ends: the two panics have their own cases. */
  datatype FreeOutcome = Freed | NoSuchDescriptor | AlreadyFree

  function Lower(i: nat, first: Option<nat>): nat {
    if first.Some? && first.value < i then first.value else i
  }

  lemma {:induction false} FirstFreeFreed(free: seq<bool>, i: nat, from: nat)
    requires from <= i < |free|
    ensures FirstFree(free[i := true], from) == Some(Lower(i, FirstFree(free, from)))
    decreases i - from
  {
    if from < i && !free[from] { FirstFreeFreed(free, i, from + 1); }
  }

  class Disk {
    const free: array<bool>
    const desc: array<Desc>
    const ops: array<Op>
    const info: array<Info>
    const ring: array<nat>
    var availIdx: nat
    var seenIdx: nat
    /** Buffers whose `disk` flag is set. */
    var busy: set<nat>

    predicate Shape()
      reads this
    {
      && free.Length == desc.Length == ops.Length == info.Length == ring.Length == NUM
      && availIdx < IDX && seenIdx < IDX
    }

    ghost function D(): Driver
      reads this, free, desc, ops, info, ring
    {
      Driver(free[..], desc[..], ops[..], info[..], ring[..], availIdx, seenIdx)
    }

    /** virtio_disk_init: every descriptor free and clear, both indices 0. */
    constructor ()
      ensures Shape() && fresh(free) && fresh(desc) && fresh(ops) && fresh(info) && fresh(ring)
      ensures (forall i :: 0 <= i < NUM ==> free[i] && desc[i] == NoDesc() && info[i].b == None)
              && availIdx == seenIdx == 0 && busy == {}
    {
      free := new bool[NUM](i => true);
      desc := new Desc[NUM](i => NoDesc());
      ops := new Op[NUM](i => Op(false, 0));
      info := new Info[NUM](i => Info(None, 0));
      ring := new nat[NUM](i => 0);
      availIdx, seenIdx, busy := 0, 0, {};
    }

    method AllocDesc() returns (r: Option<nat>)
      requires Shape()
      modifies free
      ensures r == old(FirstFree(free[..], 0))
      ensures free[..] == (if r.Some? then old(free[..])[r.value := false] else old(free[..]))
    {
      var i := 0;
      while i < NUM
        invariant 0 <= i <= NUM && (forall j :: 0 <= j < i ==> !free[j]) && free[..] == old(free[..])
      {
        if free[i] {
          SkipTaken(free[..], 0, i);
          free[i] := false;
          return Some(i);
        }
        i := i + 1;
      }
      SkipTaken(free[..], 0, NUM);
      r := None;
    }

    /** free_desc. Anything but a descriptor in use is a panic, and changes nothing; otherwise one descriptor fewer is
        in use, and the next alloc_desc takes this one or a lower one. */
    method FreeDesc(i: nat) returns (r: FreeOutcome)
      requires Shape()
      modifies free, desc
      ensures r == NoSuchDescriptor <==> i >= NUM
      ensures r == AlreadyFree <==> i < NUM && old(free[i])
      ensures r != Freed ==> free[..] == old(free[..]) && desc[..] == old(desc[..])
      ensures r == Freed ==> free[..] == old(free[..])[i := true] && desc[..] == old(desc[..])[i := NoDesc()]
      ensures r == Freed ==> Used(free[..]) == old(Used(free[..])) - 1
      ensures r == Freed ==> FirstFree(free[..], 0) == Some(Lower(i, old(FirstFree(free[..], 0))))
    {
      if i >= NUM {
        return NoSuchDescriptor;
      }
      if free[i] {
        return AlreadyFree;
      }
      FirstFreeFreed(free[..], i, 0);
      UsedLess(free[..], i);
      desc[i] := NoDesc();
      free[i] := true;
      assert free[..] == old(free[..])[i := true];
      r := Freed;
    }

    /** Follows a chain to its end, freeing each descriptor; panics exactly when it comes to one that is not in use. */
    method FreeChainFrom(i: nat) returns (ok: bool)
      requires Shape()
      modifies free, desc
      ensures ok <==> old(FreeChain(free[..], desc[..], i)).Some?
      ensures ok ==> Some((free[..], desc[..])) == old(FreeChain(free[..], desc[..], i))
    {
      var k: nat := i;
      while true
        invariant FreeChain(free[..], desc[..], k) == old(FreeChain(free[..], desc[..], i))
        decreases Used(free[..])
      {
        var more, next: nat := false, 0;
        if k < NUM { more, next := desc[k].more, desc[k].next; }
        var r := FreeDesc(k);
        if r != Freed { return false; }
        if more { k := next; } else { break; }
      }
      ok := true;
    }

    /** The descriptors an attempt has taken, freed again. */
    method GiveBack(a: nat, b: Option<nat>, ghost f: seq<bool>)
      requires Shape() && |f| == NUM && a < NUM && f[a] && (b.Some? ==> b.value < NUM && b.value != a && f[b.value])
      requires free[..] == if b.Some? then f[a := false][b.value := false] else f[a := false]
      modifies free, desc
      ensures free[..] == f && forall j :: 0 <= j < NUM && !f[j] ==> desc[j] == old(desc[j])
    {
      var _ := FreeDesc(a);
      if b.Some? {
        var _ := FreeDesc(b.value);
      }
      assert free[..] == f;
    }

    /** Three descriptors, or none taken; a failed attempt only clears descriptors that were free. */
    method Alloc3Desc() returns (r: Option<(nat, nat, nat)>)
      requires Shape()
      modifies free, desc
      ensures r == old(Alloc3(free[..]))
      ensures r.Some? ==> free[..] == old(free[..])[r.value.0 := false][r.value.1 := false][r.value.2 := false]
      ensures r.None? ==> free[..] == old(free[..])
      ensures forall j :: 0 <= j < NUM && (r.Some? || !old(free[j])) ==> desc[j] == old(desc[j])
    {
      ghost var f := free[..];
      var a := AllocDesc();
      if a.None? { return None; }
      var b := AllocDesc();
      if b.None? {
        Alloc3Is(f, a.value, b, None);
        GiveBack(a.value, None, f);
        return None;
      }
      var c := AllocDesc();
      Alloc3Is(f, a.value, b, c);
      if c.None? {
        GiveBack(a.value, b, f);
        return None;
      }
      r := Some((a.value, b.value, c.value));
    }

    /** The first half of virtio_disk_rw, once descriptors are available: up to the entry in the avail ring. */
    method Fill(b: nat, write: bool, blockno: nat, i0: nat, i1: nat, i2: nat)
      requires Shape() && i0 < i1 < i2 < NUM && !free[i0] && !free[i1] && !free[i2]
      modifies this, desc, ops, info, ring
      ensures D() == Filled(old(D()), b, write, Sector(blockno), i0, i1,
                            i2).(ring := old(ring[..])[availIdx % NUM := i0])
      ensures Shape() && busy == old(busy) + {b}
    {
      ops[i0] := Op(write, Sector(blockno));
      desc[i0] := Desc(OpsAddr(i0), OPSIZE, true, false, i1);
      desc[i1] := Desc(DataAddr(b), BSIZE, true, !write, i2);
      info[i0] := info[i0].(status := 0xff);
      desc[i2] := Desc(StatusAddr(i0), 1, false, true, 0);
      busy := busy + {b};
      info[i0] := info[i0].(b := Some(b));
      ring[availIdx % NUM] := i0;
      assert free[..] == free[..][i0 := false][i1 := false][i2 := false];
    }

    /** One round of virtio_disk_intr. */
    method AckNext(used: seq<nat>, usedIdx: nat) returns (b: nat)
      requires Shape() && |used| == NUM && usedIdx < IDX && seenIdx != usedIdx
      requires Ready(info[..], used, seenIdx, Distance(seenIdx, usedIdx))
      modifies this`busy, this`seenIdx
      ensures Shape() && busy == old(busy) - {b} && Distance(seenIdx, usedIdx) == old(Distance(seenIdx, usedIdx)) - 1
      ensures Ready(info[..], used, seenIdx, Distance(seenIdx, usedIdx))
      ensures old(Acks(info[..], used, seenIdx, Distance(seenIdx, usedIdx))) ==
              [b] + Acks(info[..], used, seenIdx, Distance(seenIdx, usedIdx))
    {
      DistanceNext(seenIdx, usedIdx);
      var id := used[seenIdx % NUM];
      b := info[id].b.value;
      busy := busy - {b};
      seenIdx := (seenIdx + 1) % IDX;
    }

    /** virtio_disk_intr: acknowledges every entry between the two 16-bit indices, wrapped or not, and no other. */
    method Drain(used: seq<nat>, usedIdx: nat) returns (cleared: seq<nat>)
      requires Shape() && |used| == NUM && usedIdx < IDX
      requires Ready(info[..], used, seenIdx, Distance(seenIdx, usedIdx))
      modifies this
      ensures Shape() && seenIdx == usedIdx && availIdx == old(availIdx)
      ensures cleared == old(Acks(info[..], used, seenIdx, Distance(seenIdx, usedIdx)))
      ensures busy == StillBusy(old(busy), cleared)
    {
      cleared := [];
      ghost var inf, all := info[..], Acks(info[..], used, seenIdx, Distance(seenIdx, usedIdx));
      while seenIdx != usedIdx
        invariant Shape() && availIdx == old(availIdx) && info[..] == inf
        invariant Ready(inf, used, seenIdx, Distance(seenIdx, usedIdx))
        invariant cleared + Acks(inf, used, seenIdx, Distance(seenIdx, usedIdx)) == all
        invariant busy == StillBusy(old(busy), cleared)
        decreases Distance(seenIdx, usedIdx)
      {
        var b := AckNext(used, usedIdx);
        ClearMore(old(busy), cleared, b);
        NextFirst(cleared, b, Acks(inf, used, seenIdx, Distance(seenIdx, usedIdx)));
        cleared := cleared + [b];
      }
    }
  }

  /** The buffers still busy once those listed are done. */
  ghost function StillBusy(busy: set<nat>, done: seq<nat>): set<nat> {
    busy - (set b | b in done)
  }

  lemma NextFirst(cleared: seq<nat>, b: nat, rest: seq<nat>)
    ensures cleared + ([b] + rest) == cleared + [b] + rest
  {
  }

  lemma ClearMore(busy: set<nat>, done: seq<nat>, b: nat)
    ensures StillBusy(busy, done) - {b} == StillBusy(busy, done + [b])
  {
  }

  /** How far one 16-bit index is behind another. */
  function Distance(from: nat, to: nat): nat {
    (to - from) % IDX
  }

  lemma DistanceNext(from: nat, to: nat)
    requires from < IDX && to < IDX && from != to
    ensures Distance(from, to) > 0 && Distance((from + 1) % IDX, to) == Distance(from, to) - 1
  {
  }

  /** The next n entries are completed chains with status 0 and a buffer. */
  predicate Ready(info: seq<Info>, used: seq<nat>, from: nat, n: nat)
    requires |used| == |info| == NUM
    decreases n
  {
    n > 0 ==>
      && used[from % NUM] < NUM && info[used[from % NUM]].status == 0 && info[used[from % NUM]].b.Some?
      && Ready(info, used, (from + 1) % IDX, n - 1)
  }

  /** Their buffers, in ring order. */
  function Acks(info: seq<Info>, used: seq<nat>, from: nat, n: nat): (r: seq<nat>)
    requires |used| == |info| == NUM && Ready(info, used, from, n)
    ensures |r| == n
    decreases n
  {
    if n == 0 then [] else [info[used[from % NUM]].b.value] + Acks(info, used, (from + 1) % IDX, n - 1)
  }

  lemma {:induction false} ReadyFrom(s: State, pos: nat, n: nat)
    requires Inv(s) && s.g.seen <= pos && pos + n == s.g.com
    ensures Ready(s.d.info, s.v.used, pos % IDX, n)
    decreases n
  {
    if n > 0 {
      UsedHeadIs(s, pos);
      assert UsedOk(s.g, pos);
      ChainInUse(s, s.g.usedAt[pos]);
      Wrapped(pos);
      ReadyFrom(s, pos + 1, n - 1);
    }
  }

  /** In every reachable state the interrupt handler can drain the used ring without a panic. */
  lemma DrainReady(states: seq<State>, events: seq<Event>, i: nat)
    requires Run(states, events) && i < |states|
    ensures var s := states[i]; Sized(s) && Ready(s.d.info, s.v.used, s.d.seenIdx, Distance(s.d.seenIdx, s.v.usedIdx))
  {
    var s := states[i];
    RunKeeps(states, events, i);
    UsedRoomAll(s);
    DistanceIs(s.g.seen, s.g.com);
    ReadyFrom(s, s.g.seen, s.g.com - s.g.seen);
  }

  lemma DistanceIs(p: nat, q: nat)
    requires p <= q <= p + NUM
    ensures Distance(p % IDX, q % IDX) == q - p
  {
  }
}

