/** The virtio block driver of kernel/virtio_disk.c and the device it talks to: descriptors, the avail and used rings
    with their 16-bit indices, and requests from many threads. Follows sections 2.6 and 5.2 of VIRTIO 1.1, legacy
    interface. */
module VirtioRing {
  import opened Params

  const NUM: nat := 8
  const IDX: nat := 0x10000
  /** sizeof(struct virtio_blk_req). */
  const OPSIZE: nat := 16

  /** What a descriptor's address is the address of. */
  datatype Addr = Null | OpsAddr(i: nat) | DataAddr(b: nat) | StatusAddr(i: nat)

  /** struct virtq_desc; `more` is VRING_DESC_F_NEXT, `write` VRING_DESC_F_WRITE. */
  datatype Desc = Desc(addr: Addr, len: nat, more: bool, write: bool, next: nat)

  /** struct virtio_blk_req. */
  datatype Op = Op(write: bool, sector: nat)

  datatype Info = Info(b: Option<nat>, status: nat)

  function NoDesc(): Desc { Desc(Null, 0, false, false, 0) }

  const SECTOR: nat := 512
  /** Sectors of a block. */
  const SECTORS: nat := BSIZE / SECTOR

  /** The first sector of a block: the one that begins where the block does. */
  function Sector(blockno: nat): (s: nat)
    ensures s * SECTOR == blockno * BSIZE
  {
    blockno * (BSIZE / 512)
  }

  // ---- descriptors

  /** alloc_desc: the first free descriptor. */
  function FirstFree(free: seq<bool>, from: nat): (r: Option<nat>)
    ensures r.Some? ==> from <= r.value < |free| && free[r.value]
    ensures r.Some? ==> forall j :: from <= j < r.value ==> !free[j]
    ensures r.None? ==> forall j :: from <= j < |free| ==> !free[j]
    decreases |free| - from
  {
    if from >= |free| then None else if free[from] then Some(from) else FirstFree(free, from + 1)
  }

  /** alloc3_desc: the first three free descriptors, or none. */
  function Alloc3(free: seq<bool>): (r: Option<(nat, nat, nat)>)
    ensures r.Some? ==>
              r.value.0 < r.value.1 < r.value.2 < |free| && free[r.value.0] && free[r.value.1] && free[r.value.2]
  {
    var a := FirstFree(free, 0);
    if a.None? then None else
    var b := FirstFree(free, a.value + 1);
    if b.None? then None else
    var c := FirstFree(free, b.value + 1);
    if c.None? then None else Some((a.value, b.value, c.value))
  }

  ghost function Frees(free: seq<bool>): set<nat> {
    set i: nat | i < |free| && free[i]
  }

  lemma Within(a: set<nat>, b: set<nat>)
    requires a <= b
    ensures |a| <= |b|
  {
    assert b == a + (b - a);
  }

  /** alloc3_desc gives the three lowest free descriptors; it fails if and only if there are fewer than three. */
  lemma Alloc3Exactly(free: seq<bool>)
    ensures Alloc3(free).None? <==> |Frees(free)| < 3
    ensures var r := Alloc3(free);
            r.Some? ==> forall i :: 0 <= i < r.value.2 && free[i] ==> i == r.value.0 || i == r.value.1
  {
    var a := FirstFree(free, 0);
    if a.None? {
      assert Frees(free) == {};
      return;
    }
    var b := FirstFree(free, a.value + 1);
    if b.None? {
      assert Frees(free) == {a.value};
      return;
    }
    var c := FirstFree(free, b.value + 1);
    if c.None? {
      assert Frees(free) == {a.value, b.value};
    } else {
      Within({a.value, b.value, c.value}, Frees(free));
    }
  }

  /** How many descriptors are not free. */
  function Used(free: seq<bool>): nat {
    if free == [] then 0 else (if free[0] then 0 else 1) + Used(free[1..])
  }

  lemma {:induction false} UsedLess(free: seq<bool>, i: nat)
    requires i < |free| && !free[i]
    ensures Used(free[i := true]) == Used(free) - 1
  {
    if i == 0 {
      assert free[0 := true][1..] == free[1..];
    } else {
      assert free[i := true][1..] == free[1..][i - 1 := true];
      UsedLess(free[1..], i - 1);
    }
  }

  /** free_chain from i, or None if free_desc would panic. */
  function FreeChain(free: seq<bool>, desc: seq<Desc>, i: nat): Option<(seq<bool>, seq<Desc>)>
    requires |desc| == |free|
    decreases Used(free)
  {
    if i >= |free| || free[i] then None else
    var d := desc[i];
    UsedLess(free, i);
    if d.more then FreeChain(free[i := true], desc[i := NoDesc()], d.next)
    else Some((free[i := true], desc[i := NoDesc()]))
  }

  // ---- state

  /** struct disk, as the driver sees it. */
  datatype Driver = Driver(free: seq<bool>, desc: seq<Desc>, ops: seq<Op>, info: seq<Info>, ring: seq<nat>,
                           availIdx: nat, seenIdx: nat)

  /** The device: how far it has read the avail ring, the chains it works on, the used ring. */
  datatype Device = Device(last: nat, taken: set<nat>, used: seq<nat>, usedIdx: nat)

  /** The contents of a buffer, a sector each, and the block it is of. */
  datatype Buf = Buf(data: seq<int>, blockno: nat)

  /** Buffers and disk: which buffers have b->disk set, the buffers, and the contents of each sector. */
  datatype Data = Data(busy: set<nat>, bufs: map<nat, Buf>, store: map<nat, int>)

  /** Where a request is: set up, in the avail ring, with the device, in the used ring, or acknowledged. */
  datatype Phase = New | Avail(pos: nat) | Taken | Done(pos: nat) | Cleared

  /** A thread inside virtio_disk_rw: its three indices, and where its request is. */
  datatype Req = Req(i0: nat, i1: nat, i2: nat, write: bool, phase: Phase)

  /** Book-keeping: requests by buffer, the owner of each descriptor, the owner of each ring position, how many chains
      were ever published, read by the device, completed and acknowledged, and the thread between set-up and
      publication. */
  datatype Book = Book(reqs: map<nat, Req>, owner: map<nat, nat>, availAt: map<nat, nat>, usedAt: map<nat, nat>,
                       pub: nat, con: nat, com: nat, seen: nat, lock: Option<nat>)

  datatype State = State(d: Driver, v: Device, m: Data, g: Book)

  datatype Event =
    | Submit(b: nat, write: bool)
    | Publish(b: nat)
    | DevTake
    | DevComplete(h: nat)
    | Intr
    | Finish(b: nat)
    | Use(b: nat, buf: Buf)

  // ---- steps

  /** The three descriptors and what they point to. */
  function Filled(d: Driver, b: nat, write: bool, sector: nat, i0: nat, i1: nat, i2: nat): Driver
    requires i0 < |d.desc| && i1 < |d.desc| && i2 < |d.desc| && |d.ops| == |d.info| == |d.free| == |d.desc|
  {
    d.(free := d.free[i0 := false][i1 := false][i2 := false],
       ops := d.ops[i0 := Op(write, sector)],
       desc := d.desc[i0 := Desc(OpsAddr(i0), OPSIZE, true, false, i1)]
                     [i1 := Desc(DataAddr(b), BSIZE, true, !write, i2)]
                     [i2 := Desc(StatusAddr(i0), 1, false, true, 0)],
       info := d.info[i0 := Info(Some(b), 0xff)])
  }

  predicate Sized(s: State) {
    |s.d.free| == |s.d.desc| == |s.d.ops| == |s.d.info| == |s.d.ring| == |s.v.used| == NUM
  }

  ghost predicate Enabled(s: State, e: Event) {
    && Sized(s)
    && match e
       case Submit(b, _) => s.g.lock == None && b !in s.g.reqs && b in s.m.bufs && Alloc3(s.d.free).Some?
       case Publish(b) => s.g.lock == Some(b) && b in s.g.reqs
       case DevTake => s.v.last != s.d.availIdx && s.v.last % NUM < NUM && ChainOk(s, s.d.ring[s.v.last % NUM])
       case DevComplete(h) => h in s.v.taken && ChainOk(s, h)
       case Intr => s.g.lock == None && s.d.seenIdx != s.v.usedIdx && IntrOk(s)
       case Finish(b) => s.g.lock == None && b in s.g.reqs && b !in s.m.busy && s.g.reqs[b].i0 < NUM
           && ChainFree(s, b).Some?
       // a buffer is the owner's to use while it is in no request
       case Use(b, buf) => b !in s.g.reqs && |buf.data| == SECTORS
  }

  /** The device can follow the chain from h: a request, a buffer with a block, a status byte. Anything else it would
      reject. */
  ghost predicate ChainOk(s: State, h: nat)
    requires Sized(s)
  {
    && h < NUM && h in s.g.owner && s.g.owner[h] in s.g.reqs
    && var d0 := s.d.desc[h];
    && d0.more && d0.len == OPSIZE && d0.next < NUM && d0.addr.OpsAddr? && d0.addr.i < NUM
    && var d1 := s.d.desc[d0.next];
    && d1.more && d1.next < NUM && d1.addr.DataAddr? && d1.addr.b in s.m.bufs
    && d1.len == |s.m.bufs[d1.addr.b].data| * SECTOR
    && var d2 := s.d.desc[d1.next];
    && !d2.more && d2.len == 1 && d2.write && d2.addr.StatusAddr? && d2.addr.i < NUM
    && d1.write == !s.d.ops[d0.addr.i].write
  }

  /** The interrupt handler finds a completed chain with status 0 and a buffer; it would panic otherwise. */
  predicate IntrOk(s: State)
    requires Sized(s)
  {
    && var id := s.v.used[s.d.seenIdx % NUM];
    id < NUM && s.d.info[id].status == 0 && s.d.info[id].b.Some? && s.d.info[id].b.value in s.g.reqs
  }

  function ChainFree(s: State, b: nat): Option<(seq<bool>, seq<Desc>)>
    requires Sized(s) && b in s.g.reqs
  {
    FreeChain(s.d.free, s.d.desc, s.g.reqs[b].i0)
  }

  function SetPhase(g: Book, b: nat, p: Phase): Book
    requires b in g.reqs
  {
    g.(reqs := g.reqs[b := g.reqs[b].(phase := p)])
  }

  function Stored(m: Data, sector: nat): int {
    if sector in m.store then m.store[sector] else 0
  }

  /** n sectors from the disk. */
  function Load(m: Data, sector: nat, n: nat): (s: seq<int>)
    ensures |s| == n && forall k :: 0 <= k < n ==> s[k] == Stored(m, sector + k)
  {
    seq(n, k requires 0 <= k < n => Stored(m, sector + k))
  }

  /** The disk with the contents at a sector and those that follow. */
  function Store(m: Data, sector: nat, data: seq<int>): (m': Data)
    ensures m'.busy == m.busy && m'.bufs == m.bufs
    ensures forall x: nat :: Stored(m', x) == if sector <= x < sector + |data| then data[x - sector] else Stored(m, x)
    decreases |data|
  {
    if data == [] then m
    else Store(m.(store := m.store[sector := data[0]]), sector + 1, data[1..])
  }

  /** The device moves the data of a chain, reading the request through its descriptors. */
  function Transferred(s: State, h: nat): Data
    requires Sized(s) && h < NUM && s.d.desc[h].next < NUM && s.d.desc[h].addr.OpsAddr? && s.d.desc[h].addr.i < NUM
    requires s.d.desc[s.d.desc[h].next].addr.DataAddr? && s.d.desc[s.d.desc[h].next].addr.b in s.m.bufs
  {
    var op := s.d.ops[s.d.desc[h].addr.i];
    var b := s.d.desc[s.d.desc[h].next].addr.b;
    if op.write then Store(s.m, op.sector, s.m.bufs[b].data)
    else
      var data := Load(s.m, op.sector, s.d.desc[s.d.desc[h].next].len / SECTOR);
      s.m.(bufs := s.m.bufs[b := s.m.bufs[b].(data := data)])
  }

  ghost function Apply(s: State, e: Event): State
    requires Enabled(s, e)
  {
    match e
    case Submit(b, write) =>
      var (i0, i1, i2) := Alloc3(s.d.free).value;
      var d := Filled(s.d, b, write, Sector(s.m.bufs[b].blockno), i0, i1, i2);
      State(d.(ring := d.ring[d.availIdx % NUM := i0]), s.v, s.m.(busy := s.m.busy + {b}),
            s.g.(reqs := s.g.reqs[b := Req(i0, i1, i2, write, New)], owner := s.g.owner[i0 := b][i1 := b][i2 := b],
                 lock := Some(b)))
    case Publish(b) =>
      s.(d := s.d.(availIdx := (s.d.availIdx + 1) % IDX),
         g := SetPhase(s.g, b, Avail(s.g.pub)).(pub := s.g.pub + 1, availAt := s.g.availAt[s.g.pub := b], lock := None))
    case DevTake =>
      var h := s.d.ring[s.v.last % NUM];
      s.(v := s.v.(last := (s.v.last + 1) % IDX, taken := s.v.taken + {h}),
         g := SetPhase(s.g, s.g.owner[h], Taken).(con := s.g.con + 1))
    case DevComplete(h) =>
      var st := s.d.desc[s.d.desc[s.d.desc[h].next].next].addr.i;
      State(s.d.(info := s.d.info[st := s.d.info[st].(status := 0)]),
            s.v.(taken := s.v.taken - {h}, used := s.v.used[s.v.usedIdx % NUM := h],
                 usedIdx := (s.v.usedIdx + 1) % IDX),
            Transferred(s, h),
            SetPhase(s.g, s.g.owner[h], Done(s.g.com)).(com := s.g.com + 1,
                                                        usedAt := s.g.usedAt[s.g.com := s.g.owner[h]]))
    case Intr =>
      var b := s.d.info[s.v.used[s.d.seenIdx % NUM]].b.value;
      s.(d := s.d.(seenIdx := (s.d.seenIdx + 1) % IDX), m := s.m.(busy := s.m.busy - {b}),
         g := SetPhase(s.g, b, Cleared).(seen := s.g.seen + 1))
    case Finish(b) =>
      var r := s.g.reqs[b];
      var (f, ds) := ChainFree(s, b).value;
      s.(d := s.d.(free := f, desc := ds, info := s.d.info[r.i0 := s.d.info[r.i0].(b := None)]),
         g := s.g.(reqs := s.g.reqs - {b}, owner := s.g.owner - {r.i0, r.i1, r.i2}))
    case Use(b, buf) => s.(m := s.m.(bufs := s.m.bufs[b := buf]))
  }

  // ---- the invariant

  predicate InChain(r: Req, i: nat) { i == r.i0 || i == r.i1 || i == r.i2 }

  /** The chain of request r for buffer b is in the descriptors, and the driver remembers whose it is. */
  ghost predicate ChainIs(d: Driver, bufs: map<nat, Buf>, b: nat, r: Req)
    requires |d.desc| == |d.ops| == |d.info| == NUM
  {
    && r.i0 < NUM && r.i1 < NUM && r.i2 < NUM && r.i0 != r.i1 && r.i0 != r.i2 && r.i1 != r.i2
    && d.desc[r.i0] == Desc(OpsAddr(r.i0), OPSIZE, true, false, r.i1)
    && d.desc[r.i1] == Desc(DataAddr(b), BSIZE, true, !r.write, r.i2)
    && d.desc[r.i2] == Desc(StatusAddr(r.i0), 1, false, true, 0)
    && b in bufs && d.ops[r.i0] == Op(r.write, Sector(bufs[b].blockno))
    && d.info[r.i0].b == Some(b)
  }

  /** The rings and the device have the request where its phase says. */
  ghost predicate PlaceOk(s: State, b: nat, r: Req)
    requires Sized(s) && r.i0 < NUM
  {
    match r.phase
    case New => s.g.lock == Some(b) && s.d.ring[s.g.pub % NUM] == r.i0
    case Avail(pos) => s.g.con <= pos < s.g.pub && s.d.ring[pos % NUM] == r.i0 && pos in s.g.availAt
        && s.g.availAt[pos] == b
    case Taken => r.i0 in s.v.taken
    case Done(pos) =>
      && s.g.seen <= pos < s.g.com && s.v.used[pos % NUM] == r.i0 && pos in s.g.usedAt && s.g.usedAt[pos] == b
      && s.d.info[r.i0].status == 0
    case Cleared => true
  }

  ghost predicate ReqOk(s: State, b: nat)
    requires Sized(s) && b in s.g.reqs
  {
    var r := s.g.reqs[b];
    && ChainIs(s.d, s.m.bufs, b, r) && PlaceOk(s, b, r) && (b in s.m.busy <==> r.phase != Cleared)
    && (forall i :: InChain(r, i) ==> i in s.g.owner && s.g.owner[i] == b)
  }

  /** A descriptor is free, or in the chain of its one owner. */
  ghost predicate DescOk(s: State, i: nat)
    requires Sized(s) && i < NUM
  {
    if s.d.free[i] then i !in s.g.owner
    else i in s.g.owner && s.g.owner[i] in s.g.reqs && InChain(s.g.reqs[s.g.owner[i]], i)
  }

  ghost predicate AvailOk(g: Book, pos: nat) {
    pos in g.availAt && g.availAt[pos] in g.reqs && g.reqs[g.availAt[pos]].phase == Avail(pos)
  }

  ghost predicate UsedOk(g: Book, pos: nat) {
    pos in g.usedAt && g.usedAt[pos] in g.reqs && g.reqs[g.usedAt[pos]].phase == Done(pos)
  }

  ghost predicate TakenOk(s: State, h: nat) {
    h in s.g.owner && s.g.owner[h] in s.g.reqs && s.g.reqs[s.g.owner[h]].i0 == h
        && s.g.reqs[s.g.owner[h]].phase == Taken
  }

  /** The 16-bit indices are the counts, wrapped. */
  ghost predicate Indices(s: State) {
    && s.d.availIdx == s.g.pub % IDX && s.v.last == s.g.con % IDX && s.v.usedIdx == s.g.com % IDX
    && s.d.seenIdx == s.g.seen % IDX
    && s.g.con <= s.g.pub && s.g.seen <= s.g.com
  }

  ghost predicate Inv(s: State) {
    && Sized(s) && Indices(s)
    && (forall b {:trigger ReqOk(s, b)} :: b in s.g.reqs ==> ReqOk(s, b))
    && (forall i {:trigger DescOk(s, i)} :: 0 <= i < NUM ==> DescOk(s, i))
    && (forall pos {:trigger AvailOk(s.g, pos)} :: s.g.con <= pos < s.g.pub ==> AvailOk(s.g, pos))
    && (forall pos {:trigger UsedOk(s.g, pos)} :: s.g.seen <= pos < s.g.com ==> UsedOk(s.g, pos))
    && (forall h {:trigger TakenOk(s, h)} :: h in s.v.taken ==> TakenOk(s, h))
    && (s.g.lock.Some? ==> s.g.lock.value in s.g.reqs && s.g.reqs[s.g.lock.value].phase == New)
    && (forall b :: b in s.m.busy ==> b in s.g.reqs)
    && (forall b :: b in s.m.bufs ==> |s.m.bufs[b].data| == SECTORS)
  }

  // ---- the rings never fill up

  lemma {:induction false} Pigeonhole(s: seq<int>, n: nat)
    requires (forall i :: 0 <= i < |s| ==> 0 <= s[i] < n) && (forall i, j :: 0 <= i < j < |s| ==> s[i] != s[j])
    ensures |s| <= n
  {
    if s != [] {
      assert 0 <= s[0] < n;
      if k :| 0 <= k < |s| && s[k] == n - 1 {
        Pigeonhole(s[..k] + s[k + 1..], n - 1);
      } else {
        Pigeonhole(s, n - 1);
      }
    }
  }

  lemma RoomFor(w: seq<int>, h: nat, n: nat)
    requires h < n && (forall i :: 0 <= i < |w| ==> 0 <= w[i] < n && w[i] != h)
    requires forall i, j :: 0 <= i < j < |w| ==> w[i] != w[j]
    ensures |w| < n
  {
    Pigeonhole(w + [h], n);
  }

  /** The heads in the avail ring, and a head not in it, are distinct descriptors: there is room for one more. */
  lemma AvailRoom(s: State, h: nat)
    requires Inv(s) && h < NUM
             && (h !in s.g.owner || (s.g.owner[h] in s.g.reqs && !s.g.reqs[s.g.owner[h]].phase.Avail?))
    ensures s.g.pub - s.g.con < NUM
  {
    var n, con := s.g.pub - s.g.con, s.g.con;
    var w: seq<int> := seq(n, k requires 0 <= k < n => AvailHead(s, con + k));
    forall i | 0 <= i < n ensures 0 <= w[i] < NUM && w[i] != h { AvailHeadIs(s, con + i); }
    forall i, j | 0 <= i < j < n ensures w[i] != w[j] { AvailDiffer(s, con + i, con + j); }
    RoomFor(w, h, NUM);
  }

  lemma AvailDiffer(s: State, p: nat, q: nat)
    requires Inv(s) && s.g.con <= p < q < s.g.pub
    ensures AvailHead(s, p) != AvailHead(s, q)
  {
    AvailHeadIs(s, p);
    AvailHeadIs(s, q);
  }

  ghost function AvailHead(s: State, pos: nat): nat {
    if pos in s.g.availAt && s.g.availAt[pos] in s.g.reqs then s.g.reqs[s.g.availAt[pos]].i0 else 0
  }

  lemma AvailHeadIs(s: State, pos: nat)
    requires Inv(s) && s.g.con <= pos < s.g.pub
    ensures AvailHead(s, pos) < NUM && AvailHead(s, pos) in s.g.owner && s.g.owner[AvailHead(s, pos)] in s.g.reqs
    ensures s.g.reqs[s.g.owner[AvailHead(s, pos)]].phase == Avail(pos)
    ensures s.d.ring[pos % NUM] == AvailHead(s, pos)
  {
    assert AvailOk(s.g, pos) && ReqOk(s, s.g.availAt[pos]);
    assert InChain(s.g.reqs[s.g.availAt[pos]], AvailHead(s, pos));
  }

  lemma UsedRoom(s: State, h: nat)
    requires Inv(s) && h < NUM && h in s.g.owner && s.g.owner[h] in s.g.reqs && !s.g.reqs[s.g.owner[h]].phase.Done?
    ensures s.g.com - s.g.seen < NUM
  {
    var n, seen := s.g.com - s.g.seen, s.g.seen;
    var w: seq<int> := seq(n, k requires 0 <= k < n => UsedHead(s, seen + k));
    forall i | 0 <= i < n ensures 0 <= w[i] < NUM && w[i] != h { UsedHeadIs(s, seen + i); }
    forall i, j | 0 <= i < j < n ensures w[i] != w[j] { UsedDiffer(s, seen + i, seen + j); }
    RoomFor(w, h, NUM);
  }

  lemma UsedDiffer(s: State, p: nat, q: nat)
    requires Inv(s) && s.g.seen <= p < q < s.g.com
    ensures UsedHead(s, p) != UsedHead(s, q)
  {
    UsedHeadIs(s, p);
    UsedHeadIs(s, q);
  }

  ghost function UsedHead(s: State, pos: nat): nat {
    if pos in s.g.usedAt && s.g.usedAt[pos] in s.g.reqs then s.g.reqs[s.g.usedAt[pos]].i0 else 0
  }

  lemma UsedHeadIs(s: State, pos: nat)
    requires Inv(s) && s.g.seen <= pos < s.g.com
    ensures UsedHead(s, pos) < NUM && UsedHead(s, pos) in s.g.owner && s.g.owner[UsedHead(s, pos)] in s.g.reqs
    ensures s.g.reqs[s.g.owner[UsedHead(s, pos)]].phase == Done(pos)
    ensures s.v.used[pos % NUM] == UsedHead(s, pos)
  {
    assert UsedOk(s.g, pos) && ReqOk(s, s.g.usedAt[pos]);
    assert InChain(s.g.reqs[s.g.usedAt[pos]], UsedHead(s, pos));
  }

  /** Positions less than NUM apart use different slots, and wrapping the index does not change the slot. */
  lemma Slots(p: nat, q: nat)
    requires p < q < p + NUM
    ensures p % NUM != q % NUM
  {
  }

  lemma Wrapped(p: nat)
    ensures p % IDX % NUM == p % NUM && (p % IDX + 1) % IDX == (p + 1) % IDX
  {
  }
}
