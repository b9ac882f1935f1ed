/** kernel/kalloc.c and kernel/vm.c: the page allocator, and the operations on user page tables. */
module VirtualMemory {
  import opened Params
  import opened PageTable
  import opened TableCost

  // ---- how an operation may change memory

  ghost predicate Agree(t: Tree, t': Tree, r: nat, v: nat) {
    Translate(t'.pages, r, v) == Translate(t.pages, r, v)
  }

  ghost predicate In(r: nat, v: nat, root: nat, lo: nat, hi: nat) {
    r == root && lo <= v < hi
  }

  /** Translation is the same in every address space, but for pages lo to hi of one. */
  ghost predicate SameBut(t: Tree, t': Tree, root: nat, lo: nat, hi: nat) {
    && (forall r: nat :: IsRoot(t', r) <==> IsRoot(t, r))
    && (forall r: nat, v: nat {:trigger Agree(t, t', r, v)} ::
          IsRoot(t, r) && v < NVPN && !In(r, v, root, lo, hi) ==> Agree(t, t', r, v))
  }

  ghost predicate TableOf(r: Role, root: nat) { r.Table? && r.node.root == root }

  ghost predicate DataIn(r: Role, root: nat, lo: nat, hi: nat) { r.Data? && In(r.root, r.vpn, root, lo, hi) }

  /** Only free pages are taken, for tables of `root` and for its user pages lo to hi. */
  ghost predicate RoleStep(t: Tree, t': Tree, root: nat, lo: nat, hi: nat, p: nat)
    requires p < |t.role| && p < |t'.role|
  {
    t'.role[p] == t.role[p] || (t.role[p] == Free && (TableOf(t'.role[p], root) || DataIn(t'.role[p], root, lo, hi)))
  }

  /** A page somebody holds, or a user page, keeps its bytes. */
  ghost predicate Kept(t: Tree, t': Tree, p: nat)
    requires p < |t.role| && p < |t.pages| && p < |t'.pages|
  {
    t.role[p] == Held || t.role[p].Data? ==> t'.pages[p] == t.pages[p]
  }

  ghost predicate Sized(t: Tree, t': Tree) {
    |t.pages| == |t.role| == |t'.pages| == |t'.role|
  }

  /** Address space `root` gains tables and user pages lo to hi, from free pages; nothing else changes. */
  ghost predicate Grown(t: Tree, t': Tree, root: nat, lo: nat, hi: nat) {
    && Sized(t, t') && SameBut(t, t', root, lo, hi)
    && (forall p {:trigger RoleStep(t, t', root, lo, hi, p)} :: 0 <= p < |t.role| ==> RoleStep(t, t', root, lo, hi, p))
    && (forall p {:trigger Kept(t, t', p)} :: 0 <= p < |t.role| ==> Kept(t, t', p))
  }

  lemma GrownTrans(t: Tree, t1: Tree, t2: Tree, root: nat, lo: nat, mid: nat, hi: nat)
    requires Grown(t, t1, root, lo, mid) && Grown(t1, t2, root, lo, hi) && lo <= mid <= hi
    ensures Grown(t, t2, root, lo, hi)
  {
    forall r: nat, v: nat | IsRoot(t, r) && v < NVPN && !In(r, v, root, lo, hi) ensures Agree(t, t2, r, v) {
      assert Agree(t, t1, r, v) && Agree(t1, t2, r, v);
    }
    forall p | 0 <= p < |t.role| ensures RoleStep(t, t2, root, lo, hi, p) && Kept(t, t2, p) {
      assert RoleStep(t, t1, root, lo, mid, p) && RoleStep(t1, t2, root, lo, hi, p);
      assert Kept(t, t1, p) && Kept(t1, t2, p);
    }
  }

  lemma GrownRefl(t: Tree, root: nat, lo: nat)
    requires |t.pages| == |t.role|
    ensures Grown(t, t, root, lo, lo)
  {
  }

  /** A free page becomes a page-table page. */
  lemma HangGrows(t: Tree, n: Node, i: nat, p: nat, lo: nat)
    requires TreeOk(t) && p < |t.role| && t.role[p] == Free
    requires CanHang(WithPage(t, p, ZeroTable(), Held), n, i, p)
    ensures TreeOk(WithTable(WithPage(t, p, ZeroTable(), Held), n, i, p))
    ensures Grown(t, WithTable(WithPage(t, p, ZeroTable(), Held), n, i, p), n.root, lo, lo)
  {
    var t1 := WithPage(t, p, ZeroTable(), Held);
    var t2 := WithTable(t1, n, i, p);
    WithPageOk(t, p, ZeroTable(), Held);
    WithTableOk(t1, n, i, p);
    forall r: nat, v: nat | IsRoot(t, r) && v < NVPN ensures Agree(t, t2, r, v) {
      LooseTranslate(t, p, ZeroTable(), Held, r, v);
      WithTableTranslate(t1, n, i, p, r, v);
    }
    forall q | 0 <= q < |t.role| ensures RoleStep(t, t2, n.root, lo, lo, q) && Kept(t, t2, q) {
    }
  }

  lemma LooseTranslate(t: Tree, p: nat, page: Page, r: Role, root: nat, v: nat)
    requires TreeOk(t) && p < |t.role| && Loose(t.role[p]) && Loose(r) && IsRoot(t, root) && v < NVPN
    ensures Translate(WithPage(t, p, page, r).pages, root, v) == Translate(t.pages, root, v)
  {
    WithPageOk(t, p, page, r);
    forall n | n in t.dir && n.root == root
      ensures t.dir[n] < |t.pages| && WithPage(t, p, page, r).pages[t.dir[n]] == t.pages[t.dir[n]]
    {
      assert NodeOk(t, n);
    }
    SameTables(t, WithPage(t, p, page, r), root, v);
  }

  /** A page of bytes its holder may give away. */
  ghost predicate Given(t: Tree, p: nat) {
    p < |t.role| && p < |t.pages| && t.role[p] == Held && t.pages[p].Bytes? && |t.pages[p].b| == PGSIZE
  }

  function Entry(perm: Pte, ppn: nat): Pte {
    perm.(ppn := ppn, v := true)
  }

  /** PA2PTE(pa) | perm | PTE_V. */
  lemma EntryWord(perm: Pte, ppn: nat)
    requires perm.rest < 32
    ensures Encode(Entry(perm, ppn)) == ppn * 1024 + Flags(perm) / 2 * 2 + 1
  {
    PteWord(Entry(perm, ppn));
  }

  ghost predicate MappedAt(t: Tree, root: nat, lo: nat, perm: Pte, ppn: nat, v: nat)
    requires lo <= v
  {
    Translate(t.pages, root, v) == Entry(perm, ppn + (v - lo))
  }

  ghost predicate MappedRole(t: Tree, t': Tree, root: nat, lo: nat, k: nat, ppn: nat, own: bool, p: nat)
    requires p < |t.role| && p < |t'.role|
  {
    if own && ppn <= p < ppn + k then t.role[p] == Held && t'.role[p] == Data(root, lo + (p - ppn))
    else t'.role[p] == t.role[p] || (t.role[p] == Free && TableOf(t'.role[p], root))
  }

  /** k pages from lo on are mapped to the physical pages from ppn on, which the address space now owns if `own`. */
  ghost predicate Mapped(t: Tree, t': Tree, root: nat, lo: nat, k: nat, perm: Pte, ppn: nat, own: bool) {
    && Sized(t, t') && SameBut(t, t', root, lo, lo + k)
    && (forall v: nat {:trigger MappedAt(t', root, lo, perm, ppn, v)} ::
          lo <= v < lo + k ==> MappedAt(t', root, lo, perm, ppn, v))
    && (forall p {:trigger MappedRole(t, t', root, lo, k, ppn, own, p)} ::
          0 <= p < |t.role| ==> MappedRole(t, t', root, lo, k, ppn, own, p))
    && (forall p {:trigger Kept(t, t', p)} :: 0 <= p < |t.role| ==> Kept(t, t', p))
  }

  lemma MappedGrown(t: Tree, t1: Tree, t2: Tree, root: nat, lo: nat, k: nat, perm: Pte, ppn: nat, own: bool)
    requires Mapped(t, t1, root, lo, k, perm, ppn, own) && Grown(t1, t2, root, 0, 0) && IsRoot(t, root)
             && lo + k <= NVPN
    ensures Mapped(t, t2, root, lo, k, perm, ppn, own)
  {
    forall r: nat, v: nat | IsRoot(t, r) && v < NVPN && !In(r, v, root, lo, lo + k) ensures Agree(t, t2, r, v) {
      assert Agree(t, t1, r, v) && Agree(t1, t2, r, v);
    }
    forall v: nat | lo <= v < lo + k ensures MappedAt(t2, root, lo, perm, ppn, v) {
      assert MappedAt(t1, root, lo, perm, ppn, v) && Agree(t1, t2, root, v);
    }
    forall p | 0 <= p < |t.role| ensures MappedRole(t, t2, root, lo, k, ppn, own, p) && Kept(t, t2, p) {
      assert MappedRole(t, t1, root, lo, k, ppn, own, p) && RoleStep(t1, t2, root, 0, 0, p);
      assert Kept(t, t1, p) && Kept(t1, t2, p);
    }
  }

  /** A page whose entry is invalid has no physical page. */
  lemma NoneOwned(t: Tree, n: Node, i: nat, p: nat)
    requires TreeOk(t) && n in t.dir && n.level == 0 && i < NPTE && !Slot(t.pages, t.dir[n], i).v && p < |t.role|
    ensures t.role[p] != Data(n.root, n.prefix * 512 + i)
  {
    assert PageOk(t, p);
  }

  lemma MappedNext(t: Tree, t1: Tree, n: Node, i: nat, lo: nat, k: nat, perm: Pte, ppn: nat, own: bool)
    requires TreeOk(t1) && Mapped(t, t1, n.root, lo, k, perm, ppn, own) && IsRoot(t, n.root) && lo + k < NVPN
    requires CanMap(t1, n, i, Entry(perm, ppn + k), own) && n.prefix * 512 + i == lo + k
             && !Slot(t1.pages, t1.dir[n], i).v
    requires own ==> t.role[ppn + k] == Held
    ensures Mapped(t, WithLeaf(t1, n, i, Entry(perm, ppn + k), own), n.root, lo, k + 1, perm, ppn, own)
  {
    var e := Entry(perm, ppn + k);
    var t2 := WithLeaf(t1, n, i, e, own);
    forall r: nat, v: nat | IsRoot(t, r) && v < NVPN && !In(r, v, n.root, lo, lo + k + 1) ensures Agree(t, t2, r, v) {
      assert Agree(t, t1, r, v);
      WithLeafTranslate(t1, n, i, e, own, r, v);
    }
    forall v: nat | lo <= v < lo + k + 1 ensures MappedAt(t2, n.root, lo, perm, ppn, v) {
      WithLeafTranslate(t1, n, i, e, own, n.root, v);
      if v < lo + k { assert MappedAt(t1, n.root, lo, perm, ppn, v); }
    }
    MappedNextRoles(t, t1, t2, n, i, lo, k, k + 1, perm, ppn, own);
  }

  lemma MappedNextRoles(t: Tree, t1: Tree, t2: Tree, n: Node, i: nat, lo: nat, k: nat, k': nat, perm: Pte, ppn: nat,
                        own: bool)
    requires TreeOk(t1) && Mapped(t, t1, n.root, lo, k, perm, ppn, own) && k' == k + 1
    requires CanMap(t1, n, i, Entry(perm, ppn + k), own) && n.prefix * 512 + i == lo + k
             && !Slot(t1.pages, t1.dir[n], i).v
    requires t2 == WithLeaf(t1, n, i, Entry(perm, ppn + k), own) && (own ==> t.role[ppn + k] == Held)
    ensures forall p {:trigger MappedRole(t, t2, n.root, lo, k', ppn, own, p)} {:trigger Kept(t, t2, p)} ::
              0 <= p < |t.role| ==> MappedRole(t, t2, n.root, lo, k', ppn, own, p) && Kept(t, t2, p)
  {
    forall p | 0 <= p < |t.role| ensures MappedRole(t, t2, n.root, lo, k', ppn, own, p) && Kept(t, t2, p) {
      NoneOwned(t1, n, i, p);
      assert MappedRole(t, t1, n.root, lo, k, ppn, own, p) && Kept(t, t1, p);
      assert t1.role[t1.dir[n]] == Table(n);
    }
  }

  ghost predicate GoneAt(t: Tree, root: nat, v: nat) {
    Translate(t.pages, root, v) == NoPte()
  }

  ghost predicate LetGo(t: Tree, t': Tree, root: nat, lo: nat, hi: nat, r: Role, p: nat)
    requires Sized(t, t') && p < |t.role|
  {
    && t'.role[p] == (if DataIn(t.role[p], root, lo, hi) then r else t.role[p])
    && ((t.role[p] == Held || t.role[p].Data?) && t'.role[p] == t.role[p] ==> t'.pages[p] == t.pages[p])
  }

  /** Pages lo to hi are no longer mapped, and each physical page the address space had for them has role r. */
  ghost predicate Unmapped(t: Tree, t': Tree, root: nat, lo: nat, hi: nat, r: Role) {
    && Sized(t, t') && t'.dir == t.dir && SameBut(t, t', root, lo, hi)
    && (forall v: nat {:trigger GoneAt(t', root, v)} :: lo <= v < hi ==> GoneAt(t', root, v))
    && (forall p {:trigger LetGo(t, t', root, lo, hi, r, p)} :: 0 <= p < |t.role| ==> LetGo(t, t', root, lo, hi, r, p))
  }

  /** Entry i of leaf table n is cleared and, if asked for, its page freed. */
  ghost function Without(t: Tree, n: Node, i: nat, free: bool): Tree
    requires n in t.dir && NodeOk(t, n) && n.level == 0 && i < NPTE
  {
    var t1 := WithLeaf(t, n, i, NoPte(), false);
    var p := Slot(t.pages, t.dir[n], i).ppn;
    if free && p < |t.role| then WithPage(t1, p, Filled(1), Free) else t1
  }

  ghost predicate CanUnmap(t: Tree, n: Node, i: nat, free: bool) {
    && n in t.dir && NodeOk(t, n) && n.level == 0 && i < NPTE
    && (free ==> Owned(t.role, Slot(t.pages, t.dir[n], i), n.root, n.prefix * 512 + i))
  }

  lemma WithoutOk(t: Tree, n: Node, i: nat, free: bool)
    requires TreeOk(t) && CanUnmap(t, n, i, free)
    ensures TreeOk(Without(t, n, i, free))
  {
    WithLeafOk(t, n, i, NoPte(), false);
    if free { WithPageOk(WithLeaf(t, n, i, NoPte(), false), Slot(t.pages, t.dir[n], i).ppn, Filled(1), Free); }
  }

  lemma WithoutTranslate(t: Tree, n: Node, i: nat, free: bool, root: nat, v: nat)
    requires TreeOk(t) && CanUnmap(t, n, i, free) && IsRoot(t, root) && v < NVPN
    ensures Translate(Without(t, n, i, free).pages, root, v) ==
            if root == n.root && v == n.prefix * 512 + i then NoPte() else Translate(t.pages, root, v)
  {
    WithLeafTranslate(t, n, i, NoPte(), false, root, v);
    WithLeafOk(t, n, i, NoPte(), false);
    if free { LooseTranslate(WithLeaf(t, n, i, NoPte(), false), Slot(t.pages, t.dir[n], i).ppn, Filled(1), Free, root,
                             v); }
  }

  /** Only the page of this entry is let go. */
  lemma WithoutRole(t: Tree, n: Node, i: nat, free: bool, p: nat)
    requires TreeOk(t) && CanUnmap(t, n, i, free) && p < |t.role|
    ensures var t' := Without(t, n, i, free);
            && t'.role[p] == (if t.role[p] == Data(n.root, n.prefix * 512 + i) then if free then Free else Held
                else t.role[p])
            && (t.role[p] != Data(n.root, n.prefix * 512 + i) && !t.role[p].Table? ==> t'.pages[p] == t.pages[p])
  {
    assert PageOk(t, p);
  }

  lemma UnmappedNext(t: Tree, t1: Tree, n: Node, i: nat, lo: nat, hi: nat, free: bool)
    requires TreeOk(t1) && Unmapped(t, t1, n.root, lo, hi, if free then Free else Held) && IsRoot(t, n.root)
             && lo <= hi < NVPN
    requires CanUnmap(t1, n, i, free) && n.prefix * 512 + i == hi
    ensures Unmapped(t, Without(t1, n, i, free), n.root, lo, hi + 1, if free then Free else Held)
  {
    var t2 := Without(t1, n, i, free);
    var r := if free then Free else Held;
    var hi' := hi + 1;
    forall q: nat, v: nat | IsRoot(t, q) && v < NVPN && !In(q, v, n.root, lo, hi') ensures Agree(t, t2, q, v) {
      assert Agree(t, t1, q, v);
      WithoutTranslate(t1, n, i, free, q, v);
    }
    forall v: nat | lo <= v < hi' ensures GoneAt(t2, n.root, v) {
      WithoutTranslate(t1, n, i, free, n.root, v);
      if v < hi { assert GoneAt(t1, n.root, v); }
    }
    forall p | 0 <= p < |t.role| ensures LetGo(t, t2, n.root, lo, hi', r, p) {
      assert LetGo(t, t1, n.root, lo, hi, r, p);
      WithoutRole(t1, n, i, free, p);
    }
  }

  /** The free list holds each free page once. */
  ghost predicate FreeOk(freelist: seq<nat>, role: seq<Role>) {
    && (forall i, j :: 0 <= i < j < |freelist| ==> freelist[i] != freelist[j])
    && (forall p :: p in freelist ==> p < |role|)
    && (forall p :: 0 <= p < |role| ==> (role[p] == Free <==> p in freelist))
  }

  lemma FreePop(freelist: seq<nat>, role: seq<Role>)
    requires FreeOk(freelist, role) && freelist != []
    ensures freelist[0] < |role| && role[freelist[0]] == Free
    ensures FreeOk(freelist[1..], role[freelist[0] := Held])
  {
    assert freelist[0] in freelist;
    assert freelist == [freelist[0]] + freelist[1..];
    assert forall p :: p in freelist[1..] ==> p in freelist;
  }

  class Memory {
    /** The first page kinit gives to the allocator: `end`, rounded up. */
    const first: nat
    var pages: seq<Page>
    var freelist: seq<nat>
    ghost var role: seq<Role>
    ghost var dir: map<Node, nat>

    ghost function T(): Tree
      reads this
    {
      Tree(pages, role, dir)
    }

    /** Every page is free, held, or in one place of one page table. */
    ghost predicate Valid()
      reads this
    {
      && TreeOk(T()) && FreeOk(freelist, role)
      && 0 < first <= |role| && (forall p :: 0 <= p < first ==> role[p] == Kernel)
    }

    /** kinit: the pages from `end` up to PHYSTOP, freed one after the other. */
    constructor (end: nat, phystop: nat)
      requires 0 < (end + PGSIZE - 1) / PGSIZE <= phystop / PGSIZE
      ensures Valid() && first == (end + PGSIZE - 1) / PGSIZE && |pages| == phystop / PGSIZE && dir == map[]
      ensures forall p :: 0 <= p < |role| ==> role[p] == if p < first then Kernel else Free
      ensures |freelist| == |role| - first
    {
      var n := phystop / PGSIZE;
      var lo := (end + PGSIZE - 1) / PGSIZE;
      first := lo;
      pages := seq(n, i => Filled(0));
      freelist := [];
      role := seq(n, i => if i < lo then Kernel else Held);
      dir := map[];
      new;
      Freerange(lo * PGSIZE, phystop);
    }

    /** kfree of every whole page between two addresses. */
    method Freerange(start: nat, stop: nat)
      requires start % PGSIZE == 0 && start / PGSIZE == first <= stop / PGSIZE == |role| == |pages|
               && FreeOk(freelist, role)
      requires forall p :: first <= p < |role| ==> role[p] == Held
      modifies this
      ensures |pages| == |old(pages)| && |role| == |old(role)| && dir == old(dir) && FreeOk(freelist, role)
      ensures forall p :: 0 <= p < |role| ==> role[p] == if p < first then old(role)[p] else Free
      ensures |freelist| == |old(freelist)| + (|role| - first)
    {
      var p := start;
      while p + PGSIZE <= stop
        invariant p % PGSIZE == 0 && first <= p / PGSIZE <= stop / PGSIZE == |role| == |pages| == |old(role)|
        invariant dir == old(dir) && FreeOk(freelist, role) && |freelist| == |old(freelist)| + (p / PGSIZE - first)
        invariant forall q :: 0 <= q < |role| ==> role[q] == if first <= q < p / PGSIZE then Free else old(role)[q]
        decreases stop - p
      {
        Kfree(p / PGSIZE);
        p := p + PGSIZE;
      }
    }

    method Kalloc() returns (r: Option<nat>)
      requires Valid()
      modifies this
      ensures Valid()
      ensures r.None? <==> old(freelist) == []
      ensures r.None? ==> T() == old(T()) && freelist == old(freelist)
      ensures r.Some? ==> freelist == old(freelist)[1..] && r.value < |old(role)| && old(role)[r.value] == Free
      ensures r.Some? ==> T() == WithPage(old(T()), r.value, Filled(5), Held)
    {
      if freelist == [] { return None; }
      var p := freelist[0];
      FreePop(freelist, role);
      WithPageOk(T(), p, Filled(5), Held);
      freelist := freelist[1..];
      role := role[p := Held];
      pages := pages[p := Filled(5)];
      r := Some(p);
    }

    /** kfree panics on a page outside first .. |pages|; only a page somebody holds may be freed. */
    method Kfree(p: nat)
      requires first <= p < |role| == |pages| && FreeOk(freelist, role) && role[p] == Held
      modifies this
      ensures FreeOk(freelist, role)
      ensures T() == WithPage(old(T()), p, Filled(1), Free) && freelist == [p] + old(freelist)
    {
      pages := pages[p := Filled(1)];
      role := role[p := Free];
      freelist := [p] + freelist;
    }

    /** An empty address space: a zeroed root page, which maps nothing. */
    method Uvmcreate() returns (r: Option<nat>)
      requires Valid()
      modifies this
      ensures Valid() && (r.None? <==> old(freelist) == [])
      ensures r.None? ==> T() == old(T())
      ensures r.Some? ==> r.value < |old(role)| && old(role)[r.value] == Free && IsRoot(T(), r.value)
      ensures r.Some? ==> T() == WithRoot(WithPage(old(T()), r.value, ZeroTable(), Held), r.value)
      ensures r.Some? ==> forall v: nat :: v < NVPN ==> Translate(pages, r.value, v) == NoPte()
      ensures r.Some? ==> |freelist| == |old(freelist)| - 1
    {
      ghost var t := T();
      r := Kalloc();
      if r.None? { return; }
      var p := r.value;
      WithPageOk(t, p, ZeroTable(), Held);
      WithRootOk(WithPage(t, p, ZeroTable(), Held), p);
      pages := pages[p := ZeroTable()];
      assert T() == WithPage(t, p, ZeroTable(), Held);
      role := role[p := Table(Node(p, 2, 0))];
      dir := dir[Node(p, 2, 0) := p];
      forall v: nat | v < NVPN ensures Translate(pages, p, v) == NoPte() { TranslateIs(T(), p, v); }
    }

    // ---- walk

    /** One level: follow entry Px(level, va) of the page-table page at p, making the next page if asked to. */
    method WalkLevel(ghost n: Node, p: nat, va: nat, level: nat, alloc: bool) returns (r: Option<nat>)
      requires Valid() && 0 < level <= 2 && va / PGSIZE < MAXVPN
      requires n in dir && dir[n] == p && n.level == level
      requires n.prefix * 512 + Px(level, va) == (if level == 2 then va / PGSIZE / 512 / 512 else va / PGSIZE / 512)
      modifies this
      ensures Valid() && Grown(old(T()), T(), n.root, 0, 0)
      ensures n in dir && dir[n] == p
      ensures r.Some? <==> Child(n, Px(level, va)) in dir
      ensures r.Some? ==> r.value == dir[Child(n, Px(level, va))]
      ensures Dug(old(dir), |old(freelist)|, dir, |freelist|, {Child(n, Px(level, va))})
      ensures !alloc ==> T() == old(T()) && freelist == old(freelist)
      ensures alloc && r.None? ==> freelist == []
    {
      var i := Px(level, va);
      assert NodeOk(T(), n) && EntryOk(T(), n, i);
      GrownRefl(T(), n.root, 0);
      DugNothing(dir, |freelist|, {Child(n, i)});
      var e := pages[p].e[i];
      if e.v { return Some(e.ppn); }
      if !alloc { return None; }
      ghost var t := T();
      var m := Kalloc();
      if m.None? { return None; }
      var q := m.value;
      pages := pages[q := ZeroTable()];
      assert T() == WithPage(t, q, ZeroTable(), Held);
      HangCan(t, n, i, q);
      HangGrows(t, n, i, q, 0);
      ghost var t2 := WithTable(T(), n, i, q);
      pages := pages[p := Ptes(pages[p].e[i := TablePte(q)])];
      role := role[q := Table(Child(n, i))];
      DugOne(dir, |old(freelist)|, Child(n, i), q, {Child(n, i)});
      dir := dir[Child(n, i) := q];
      assert T() == t2;
      r := Some(q);
    }

    /** The entry for va, as the page-table page and the index in it. */
    method Walk(root: nat, va: nat, alloc: bool) returns (r: Option<(nat, nat)>)
      requires Valid() && IsRoot(T(), root) && va / PGSIZE < MAXVPN
      modifies this
      ensures Valid() && Grown(old(T()), T(), root, 0, 0)
      ensures r.Some? <==> Node(root, 0, va / PGSIZE / 512) in dir
      ensures r.Some? ==> r.value == (dir[Node(root, 0, va / PGSIZE / 512)], va / PGSIZE % 512)
      ensures Dug(old(dir), |old(freelist)|, dir, |freelist|, Path(root, va / PGSIZE))
      ensures r.Some? ==> Path(root, va / PGSIZE) <= dir.Keys
      ensures !alloc ==> T() == old(T()) && freelist == old(freelist)
      ensures alloc && r.None? ==> freelist == []
    {
      PxDigits(va);
      ghost var vpn := va / PGSIZE;
      ghost var t := T();
      var p := root;
      ghost var n := Node(root, 2, 0);
      assert NodeOk(T(), n);
      GrownRefl(T(), root, 0);
      DugNothing(dir, |freelist|, Path(root, vpn));
      var level := 2;
      while level > 0
        invariant 0 <= level <= 2
        invariant Valid() && Grown(t, T(), root, 0, 0) && Dug(t.dir, |old(freelist)|, dir, |freelist|, Path(root, vpn))
        invariant !alloc ==> T() == t && freelist == old(freelist)
        invariant n in dir && dir[n] == p
        invariant n == Node(root, level, if level == 2 then 0 else if level == 1 then vpn / 512 / 512 else vpn / 512)
      {
        ghost var t1 := T();
        ghost var c := Child(n, Px(level, va));
        ghost var f1 := |freelist|;
        var q := WalkLevel(n, p, va, level, alloc);
        GrownTrans(t, t1, T(), root, 0, 0, 0);
        DugTrans(t.dir, |old(freelist)|, t1.dir, f1, dir, |freelist|, Path(root, vpn), {c}, Path(root, vpn));
        if q.None? {
          MissingLevel(T(), root, vpn, c);
          return None;
        }
        p := q.value;
        n := c;
        level := level - 1;
      }
      LeafPath(T(), root, vpn);
      r := Some((p, Px(0, va)));
    }

    /** walk without alloc, and the load of the entry: what the hardware would find. */
    method Lookup(root: nat, va: nat) returns (e: Pte)
      requires Valid() && IsRoot(T(), root) && va / PGSIZE < MAXVPN
      modifies this
      ensures Valid() && T() == old(T()) && freelist == old(freelist) && e == Translate(pages, root, va / PGSIZE)
    {
      var s := Walk(root, va, false);
      TranslateIs(T(), root, va / PGSIZE);
      if s.None? { return NoPte(); }
      assert NodeOk(T(), Node(root, 0, va / PGSIZE / 512));
      e := pages[s.value.0].e[s.value.1];
    }

    // ---- mappages, uvmunmap

    /** One round of mappages; `t1` is memory between walk and the store. */
    method MapRound(root: nat, a: nat, e: Pte, ghost own: bool) returns (ok: bool, ghost t1: Tree)
      requires Valid() && IsRoot(T(), root) && a / PGSIZE < MAXVPN && !Translate(pages, root, a / PGSIZE).v
      requires IsLeaf(e) && (e.u ==> own)
      requires own ==> Given(T(), e.ppn)
      modifies this
      ensures Valid() && TreeOk(t1) && Grown(old(T()), t1, root, 0, 0)
      ensures Dug(old(dir), |old(freelist)|, dir, |freelist|, Path(root, a / PGSIZE))
              && (ok <==> Path(root, a / PGSIZE) <= dir.Keys)
      ensures !ok ==> T() == t1 && freelist == []
      ensures ok ==> CanMap(t1, Node(root, 0, a / PGSIZE / 512), a / PGSIZE % 512, e, own)
      ensures ok ==> !Slot(t1.pages, t1.dir[Node(root, 0, a / PGSIZE / 512)], a / PGSIZE % 512).v
      ensures ok ==> T() == WithLeaf(t1, Node(root, 0, a / PGSIZE / 512), a / PGSIZE % 512, e, own)
    {
      ghost var t := T();
      var s := Walk(root, a, true);
      t1 := T();
      if s.None? { return false, t1; }
      var (p, i) := s.value;
      ghost var n := Node(root, 0, a / PGSIZE / 512);
      MapReady(t, t1, root, a / PGSIZE, e, own);
      WithLeafOk(t1, n, i, e, own);
      MapFree(t1, freelist, first, n, i, e, own);
      pages := pages[p := Ptes(pages[p].e[i := e])];
      role := LeafRole(role, root, a / PGSIZE, e.ppn, own);
      ok := true;
    }

    /** The page after the first k is mapped too, or memory has run out. */
    method MapNext(ghost t: Tree, root: nat, a: nat, ghost lo: nat, ghost k: nat, perm: Pte, ghost ppn: nat, p: nat,
                   ghost own: bool)
      returns (ok: bool)
      requires Valid() && Mapped(t, T(), root, lo, k, perm, ppn, own) && IsRoot(t, root)
      requires a / PGSIZE == lo + k < MAXVPN && p == ppn + k && !Translate(t.pages, root, lo + k).v
      requires (perm.r || perm.w || perm.x) && (perm.u ==> own) && (own ==> Given(t, ppn + k))
      modifies this
      ensures Valid()
      ensures Mapped(t, T(), root, lo, if ok then k + 1 else k, perm, ppn, own)
      ensures Dug(old(dir), |old(freelist)|, dir, |freelist|, Path(root, lo + k))
              && (ok <==> Path(root, lo + k) <= dir.Keys)
      ensures !ok ==> freelist == []
    {
      ghost var t0 := T();
      assert Agree(t, t0, root, lo + k);
      if own {
        assert MappedRole(t, t0, root, lo, k, ppn, own, ppn + k) && Kept(t, t0, ppn + k);
      }
      ghost var t1;
      ok, t1 := MapRound(root, a, Entry(perm, p), own);
      MappedGrown(t, t0, t1, root, lo, k, perm, ppn, own);
      if ok {
        MappedNext(t, t1, Node(root, 0, (lo + k) / 512), (lo + k) % 512, lo, k, perm, ppn, own);
      }
    }

    /** Maps the pages that hold va .. va + size; fails, having mapped the first k of them, only when memory runs
        out. */
    method Mappages(root: nat, va: nat, size: nat, pa: nat, perm: Pte, ghost own: bool) returns (ok: bool, ghost k: nat)
      requires Valid() && IsRoot(T(), root) && 0 < size && va + size <= MAXVPN * PGSIZE
      requires forall v: nat :: va / PGSIZE <= v <= (va + size - 1) / PGSIZE ==> !Translate(pages, root, v).v
      requires (perm.r || perm.w || perm.x) && (perm.u ==> own)
      requires own ==> forall p: nat {:trigger Given(T(), p)} ::
                         pa / PGSIZE <= p <= pa / PGSIZE + (va + size - 1) / PGSIZE - va / PGSIZE ==> Given(T(), p)
      modifies this
      ensures Valid()
      ensures ok ==> k == (va + size - 1) / PGSIZE - va / PGSIZE + 1
      ensures Mapped(old(T()), T(), root, va / PGSIZE, k, perm, pa / PGSIZE, own)
      ensures !ok ==> k <= (va + size - 1) / PGSIZE - va / PGSIZE && freelist == []
      ensures va % PGSIZE == 0 && size == PGSIZE ==>
                Dug(old(dir), |old(freelist)|, dir, |freelist|, Path(root, va / PGSIZE))
                    && (ok <==> Path(root, va / PGSIZE) <= dir.Keys)
    {
      ghost var n := (va + size - 1) / PGSIZE - va / PGSIZE;
      var a := va / PGSIZE * PGSIZE;
      var last := (va + size - 1) / PGSIZE * PGSIZE;
      assert va % PGSIZE == 0 && size == PGSIZE ==> n == 0;
      ok, k := MapLoop(root, a, last, pa, perm, va / PGSIZE, n, own);
    }

    method MapLoop(root: nat, a0: nat, last: nat, pa0: nat, perm: Pte, ghost lo: nat, ghost n: nat, ghost own: bool)
      returns (ok: bool, ghost k: nat)
      requires Valid() && IsRoot(T(), root) && a0 == lo * PGSIZE && last == (lo + n) * PGSIZE && lo + n < MAXVPN
      requires forall v: nat :: lo <= v <= lo + n ==> !Translate(pages, root, v).v
      requires (perm.r || perm.w || perm.x) && (perm.u ==> own)
      requires own ==> forall p: nat {:trigger Given(T(), p)} :: pa0 / PGSIZE <= p <= pa0 / PGSIZE + n ==> Given(T(), p)
      modifies this
      ensures Valid() && Mapped(old(T()), T(), root, lo, k, perm, pa0 / PGSIZE, own)
      ensures if ok then k == n + 1 else k <= n && freelist == []
      ensures n == 0 ==>
                Dug(old(dir), |old(freelist)|, dir, |freelist|, Path(root, lo)) && (ok <==> Path(root, lo) <= dir.Keys)
    {
      ghost var t, ppn := T(), pa0 / PGSIZE;
      var a, pa := a0, pa0;
      k := 0;
      while true
        invariant k <= n && a == (lo + k) * PGSIZE && pa == pa0 + k * PGSIZE
        invariant Valid() && Mapped(t, T(), root, lo, k, perm, ppn, own)
        invariant k == 0 ==> T() == t && freelist == old(freelist)
        decreases n - k
      {
        assert own ==> Given(t, ppn + k);
        ok := MapNext(t, root, a, lo, k, perm, ppn, pa / PGSIZE, own);
        if !ok { return; }
        k := k + 1;
        if a == last { break; }
        a := a + PGSIZE;
        pa := pa + PGSIZE;
      }
    }

    /** The page mapped at v can be unmapped, and freed if asked to. */
    ghost predicate Mappable(root: nat, v: nat, free: bool)
      reads this
    {
      Translate(pages, root, v).v && (free ==> Owned(role, Translate(pages, root, v), root, v))
    }

    method UnmapRound(root: nat, a: nat, free: bool)
      requires Valid() && IsRoot(T(), root) && a / PGSIZE < MAXVPN && Mappable(root, a / PGSIZE, free)
      modifies this
      ensures Valid() && CanUnmap(old(T()), Node(root, 0, a / PGSIZE / 512), a / PGSIZE % 512, free)
      ensures T() == Without(old(T()), Node(root, 0, a / PGSIZE / 512), a / PGSIZE % 512, free)
      ensures |freelist| == |old(freelist)| + if free then 1 else 0
    {
      var s := Walk(root, a, false);
      ghost var n := Node(root, 0, a / PGSIZE / 512);
      ghost var t := T();
      TranslateIs(t, root, a / PGSIZE);
      var (p, i) := s.value;
      assert NodeOk(t, n) && EntryOk(t, n, i);
      WithoutOk(t, n, i, free);
      var e := pages[p].e[i];
      role := LeafRole(role, root, a / PGSIZE, 0, false);
      if free { Kfree(e.ppn); }
      pages := pages[p := Ptes(pages[p].e[i := NoPte()])];
      assert T().pages == Without(t, n, i, free).pages;
    }

    method Uvmunmap(root: nat, va: nat, npages: nat, free: bool)
      requires Valid() && IsRoot(T(), root) && va % PGSIZE == 0 && va + npages * PGSIZE <= MAXVPN * PGSIZE
      requires forall v: nat {:trigger Mappable(root, v, free)} ::
                 va / PGSIZE <= v < va / PGSIZE + npages ==> Mappable(root, v, free)
      modifies this
      ensures Valid()
      ensures Unmapped(old(T()), T(), root, va / PGSIZE, va / PGSIZE + npages, if free then Free else Held)
      ensures |freelist| == |old(freelist)| + if free then npages else 0
    {
      ghost var t := T();
      ghost var lo := va / PGSIZE;
      ghost var v := lo;
      var a := va;
      while a < va + npages * PGSIZE
        invariant a == v * PGSIZE && lo <= v <= lo + npages
        invariant Valid() && Unmapped(t, T(), root, lo, v, if free then Free else Held)
        invariant |freelist| == |old(freelist)| + if free then v - lo else 0
        decreases va + npages * PGSIZE - a
      {
        assert old(Mappable(root, v, free));
        UnmapNext(t, root, a, lo, v, free);
        a, v := a + PGSIZE, v + 1;
      }
    }

    /** One round of uvmunmap. */
    method UnmapNext(ghost t: Tree, root: nat, a: nat, ghost lo: nat, ghost v: nat, free: bool)
      requires Valid() && TreeOk(t) && IsRoot(t, root) && a == v * PGSIZE && lo <= v < MAXVPN
      requires Unmapped(t, T(), root, lo, v, if free then Free else Held)
      requires Translate(t.pages, root, v).v && (free ==> Owned(t.role, Translate(t.pages, root, v), root, v))
      modifies this
      ensures Valid() && Unmapped(t, T(), root, lo, v + 1, if free then Free else Held)
      ensures |freelist| == |old(freelist)| + if free then 1 else 0
    {
      ghost var t1 := T();
      assert a / PGSIZE == v && Agree(t, t1, root, v);
      if free {
        assert LetGo(t, t1, root, lo, v, Free, Translate(t.pages, root, v).ppn);
      }
      UnmapRound(root, a, free);
      UnmappedNext(t, t1, Node(root, 0, v / 512), v % 512, lo, v, free);
    }
  }

  /** Where walk has found the entry of an unmapped page, it can be mapped. */
  lemma MapReady(t: Tree, t1: Tree, root: nat, v: nat, e: Pte, own: bool)
    requires TreeOk(t) && TreeOk(t1) && Grown(t, t1, root, 0, 0) && IsRoot(t, root) && v < NVPN
    requires !Translate(t.pages, root, v).v && Node(root, 0, v / 512) in t1.dir
    requires IsLeaf(e) && (e.u ==> own) && (own ==> Given(t, e.ppn))
    ensures CanMap(t1, Node(root, 0, v / 512), v % 512, e, own)
    ensures !Slot(t1.pages, t1.dir[Node(root, 0, v / 512)], v % 512).v
  {
    TranslateIs(t1, root, v);
    assert Agree(t, t1, root, v) && NodeOk(t1, Node(root, 0, v / 512));
    if own { assert RoleStep(t, t1, root, 0, 0, e.ppn) && Kept(t, t1, e.ppn); }
  }

  /** Mapping a page leaves the free pages and the kernel's alone. */
  lemma MapFree(t: Tree, freelist: seq<nat>, first: nat, n: Node, i: nat, e: Pte, own: bool)
    requires TreeOk(t) && CanMap(t, n, i, e, own) && !Slot(t.pages, t.dir[n], i).v && FreeOk(freelist, t.role)
    requires first <= |t.role| && forall p :: 0 <= p < first ==> t.role[p] == Kernel
    ensures var role := LeafRole(t.role, n.root, n.prefix * 512 + i, e.ppn, own);
            FreeOk(freelist, role) && forall p :: 0 <= p < first ==> role[p] == Kernel
  {
    forall q | 0 <= q < |t.role| ensures t.role[q] != Data(n.root, n.prefix * 512 + i) { NoneOwned(t, n, i, q); }
  }

  /** With the leaf table, the one above it is there too. */
  lemma LeafPath(t: Tree, root: nat, vpn: nat)
    requires TreeOk(t) && Node(root, 0, vpn / 512) in t.dir
    ensures Path(root, vpn) <= t.dir.Keys
  {
    assert NodeOk(t, Node(root, 0, vpn / 512)) && Parent(Node(root, 0, vpn / 512)) == Node(root, 1, vpn / 512 / 512);
  }

  lemma MissingLevel(t: Tree, root: nat, vpn: nat, c: Node)
    requires TreeOk(t) && vpn < NVPN && c !in t.dir
    requires c == Node(root, 1, vpn / 512 / 512) || c == Node(root, 0, vpn / 512)
    ensures Node(root, 0, vpn / 512) !in t.dir
  {
    var n := Node(root, 0, vpn / 512);
    assert Parent(n) == Node(root, 1, vpn / 512 / 512);
    assert n in t.dir ==> NodeOk(t, n);
  }

  lemma HangCan(t: Tree, n: Node, i: nat, p: nat)
    requires TreeOk(t) && n in t.dir && n.level > 0 && i < NPTE && !Slot(t.pages, t.dir[n], i).v
    requires p < |t.role| && t.role[p] == Free
    ensures CanHang(WithPage(t, p, ZeroTable(), Held), n, i, p)
  {
    WithPageOk(t, p, ZeroTable(), Held);
    assert NodeOk(t, n) && NodeOk(WithPage(t, p, ZeroTable(), Held), n);
  }
}
