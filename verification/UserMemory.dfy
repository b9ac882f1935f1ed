/** The user half of kernel/vm.c: growing, shrinking, copying and freeing address spaces. */
module UserMemory {
  import opened Params
  import opened PageTable
  import opened TableCost
  import opened VirtualMemory

  /** PGROUNDUP, in pages: the fewest that hold sz bytes. */
  function PagesUp(sz: nat): (n: nat)
    ensures sz <= n * PGSIZE < sz + PGSIZE
  {
    (sz + PGSIZE - 1) / PGSIZE
  }

  function UserPte(p: nat): Pte {
    Pte(p, true, true, true, true, true, 0)
  }

  /** PA2PTE(pa) | PTE_V | PTE_R | PTE_W | PTE_X | PTE_U. */
  lemma UserWord(p: nat)
    ensures Encode(UserPte(p)) == p * 1024 + 0x1f
  {
    PteWord(UserPte(p));
  }

  lemma TranslateNone(t: Tree, root: nat, v: nat)
    requires TreeOk(t) && IsRoot(t, root) && v < NVPN && !Translate(t.pages, root, v).v
    ensures Translate(t.pages, root, v) == NoPte()
  {
    TranslateIs(t, root, v);
    var n := Node(root, 0, v / 512);
    if n in t.dir { assert NodeOk(t, n) && EntryOk(t, n, v % 512); }
  }

  lemma LeafHasAccess(t: Tree, root: nat, v: nat)
    requires TreeOk(t) && IsRoot(t, root) && v < NVPN && Translate(t.pages, root, v).v
    ensures IsLeaf(Translate(t.pages, root, v))
  {
    TranslateIs(t, root, v);
    assert NodeOk(t, Node(root, 0, v / 512)) && EntryOk(t, Node(root, 0, v / 512), v % 512);
  }

  // ---- uvmdealloc

  method Uvmdealloc(m: Memory, root: nat, oldsz: nat, newsz: nat) returns (r: nat)
    requires m.Valid() && IsRoot(m.T(), root) && oldsz <= MAXVPN * PGSIZE
    requires forall v: nat {:trigger m.Mappable(root, v, true)} ::
               PagesUp(newsz) <= v < PagesUp(oldsz) ==> m.Mappable(root, v, true)
    modifies m
    ensures m.Valid() && r == (if newsz >= oldsz then oldsz else newsz)
    ensures newsz >= oldsz ==> m.T() == old(m.T()) && m.freelist == old(m.freelist)
    ensures newsz < oldsz ==> |m.freelist| == |old(m.freelist)| + (PagesUp(oldsz) - PagesUp(newsz))
    ensures newsz < oldsz ==> Unmapped(old(m.T()), m.T(), root, PagesUp(newsz), PagesUp(oldsz), Free)
  {
    if newsz >= oldsz { return oldsz; }
    if PagesUp(newsz) * PGSIZE < PagesUp(oldsz) * PGSIZE {
      var npages := (PagesUp(oldsz) * PGSIZE - PagesUp(newsz) * PGSIZE) / PGSIZE;
      m.Uvmunmap(root, PagesUp(newsz) * PGSIZE, npages, true);
    }
    r := newsz;
  }

  // ---- uvmalloc

  /** Page v is a new page, zeroed, readable, writable, executable and the user's. */
  ghost predicate FreshAt(t: Tree, t': Tree, root: nat, v: nat) {
    var e := Translate(t'.pages, root, v);
    && e.v && e.r && e.w && e.x && e.u && e.rest == 0
    && Owned(t'.role, e, root, v) && e.ppn < |t.role| && t.role[e.ppn] == Free
    && e.ppn < |t'.pages| && t'.pages[e.ppn] == Filled(0)
  }

  ghost predicate Alloced(t: Tree, t': Tree, root: nat, lo: nat, hi: nat) {
    && Grown(t, t', root, lo, hi)
    && (forall v: nat {:trigger FreshAt(t, t', root, v)} :: lo <= v < hi ==> FreshAt(t, t', root, v))
  }

  /** kalloc, filling the page, and a failed mappages, undone by kfree, only add tables. */
  lemma AllocUndo(t: Tree, t4: Tree, root: nat, a: nat, p: nat, page: Page, perm: Pte)
    requires TreeOk(t) && TreeOk(t4) && p < |t.role| && t.role[p] == Free && IsRoot(t, root)
    requires Mapped(WithPage(t, p, page, Held), t4, root, a, 0, perm, p, true)
    ensures Grown(t, WithPage(t4, p, Filled(1), Free), root, a, a)
  {
    var t3 := WithPage(t, p, page, Held);
    var t5 := WithPage(t4, p, Filled(1), Free);
    assert MappedRole(t3, t4, root, a, 0, p, true, p);
    forall r: nat ensures IsRoot(t5, r) <==> IsRoot(t, r) { assert IsRoot(t4, r) <==> IsRoot(t3, r); }
    forall r: nat, v: nat | IsRoot(t, r) && v < NVPN ensures Agree(t, t5, r, v) {
      LooseTranslate(t, p, page, Held, r, v);
      assert Agree(t3, t4, r, v);
      LooseTranslate(t4, p, Filled(1), Free, r, v);
    }
    forall q | 0 <= q < |t.role| ensures RoleStep(t, t5, root, a, a, q) && Kept(t, t5, q) {
      assert MappedRole(t3, t4, root, a, 0, p, true, q) && Kept(t3, t4, q);
    }
  }

  /** Page v of `root` is now backed by p, which was free. */
  ghost predicate Backed(t: Tree, t': Tree, root: nat, v: nat, p: nat, page: Page, perm: Pte) {
    && Sized(t, t') && p < |t.role| && t.role[p] == Free && t'.role[p] == Data(root, v) && t'.pages[p] == page
    && Translate(t'.pages, root, v) == Entry(perm, p)
  }

  /** kalloc, filling the page, and mappages of one page add that page. */
  lemma AllocOne(t: Tree, t4: Tree, root: nat, a: nat, p: nat, page: Page, perm: Pte)
    requires TreeOk(t) && TreeOk(t4) && p < |t.role| && t.role[p] == Free && IsRoot(t, root) && a < NVPN
    requires Mapped(WithPage(t, p, page, Held), t4, root, a, 1, perm, p, true)
    ensures Grown(t, t4, root, a, a + 1) && Backed(t, t4, root, a, p, page, perm)
  {
    var t3 := WithPage(t, p, page, Held);
    var b := a + 1;
    assert MappedRole(t3, t4, root, a, 1, p, true, p) && Kept(t3, t4, p) && MappedAt(t4, root, a, perm, p, a);
    forall r: nat ensures IsRoot(t4, r) <==> IsRoot(t, r) { assert IsRoot(t4, r) <==> IsRoot(t3, r); }
    forall r: nat, v: nat | IsRoot(t, r) && v < NVPN && !In(r, v, root, a, b) ensures Agree(t, t4, r, v) {
      LooseTranslate(t, p, page, Held, r, v);
      assert Agree(t3, t4, r, v);
    }
    forall q | 0 <= q < |t.role| ensures RoleStep(t, t4, root, a, b, q) && Kept(t, t4, q) {
      assert MappedRole(t3, t4, root, a, 1, p, true, q) && Kept(t3, t4, q);
    }
  }

  /** Growing further keeps the pages already added. */
  lemma AllocedTrans(t: Tree, t1: Tree, t2: Tree, root: nat, lo: nat, mid: nat, hi: nat)
    requires Alloced(t, t1, root, lo, mid) && Alloced(t1, t2, root, mid, hi) && lo <= mid <= hi < NVPN
             && IsRoot(t, root)
    ensures Alloced(t, t2, root, lo, hi)
  {
    GrownWiden(t1, t2, root, lo, mid, hi);
    GrownTrans(t, t1, t2, root, lo, mid, hi);
    forall v: nat | lo <= v < hi ensures FreshAt(t, t2, root, v) {
      if v < mid {
        assert FreshAt(t, t1, root, v) && Agree(t1, t2, root, v);
        var p := Translate(t1.pages, root, v).ppn;
        assert RoleStep(t1, t2, root, mid, hi, p) && Kept(t1, t2, p);
      } else {
        assert FreshAt(t1, t2, root, v);
        assert RoleStep(t, t1, root, lo, mid, Translate(t2.pages, root, v).ppn);
      }
    }
  }

  lemma GrownWiden(t: Tree, t': Tree, root: nat, lo: nat, mid: nat, hi: nat)
    requires Grown(t, t', root, mid, hi) && lo <= mid
    ensures Grown(t, t', root, lo, hi)
  {
    forall p | 0 <= p < |t.role| ensures RoleStep(t, t', root, lo, hi, p) {
      assert RoleStep(t, t', root, mid, hi, p);
    }
    forall r: nat, v: nat | IsRoot(t, r) && v < NVPN && !In(r, v, root, lo, hi) ensures Agree(t, t', r, v) {
      assert !In(r, v, root, mid, hi);
    }
  }

  /** Unmapping the new pages again gives every one of them back: only tables are left over. */
  lemma Rollback(t: Tree, t1: Tree, t2: Tree, root: nat, lo: nat, hi: nat)
    requires TreeOk(t) && IsRoot(t, root) && lo <= hi < NVPN
    requires Grown(t, t1, root, lo, hi) && Unmapped(t1, t2, root, lo, hi, Free)
    requires forall v: nat :: lo <= v < hi ==> !Translate(t.pages, root, v).v
    ensures Grown(t, t2, root, lo, lo)
  {
    forall r: nat, v: nat | IsRoot(t, r) && v < NVPN ensures Agree(t, t2, r, v) {
      if In(r, v, root, lo, hi) {
        TranslateNone(t, r, v);
        assert GoneAt(t2, r, v);
      } else {
        assert Agree(t, t1, r, v) && Agree(t1, t2, r, v);
      }
    }
    forall p | 0 <= p < |t.role| ensures RoleStep(t, t2, root, lo, lo, p) && Kept(t, t2, p) {
      RollbackPage(t, t1, t2, root, lo, hi, p);
    }
  }

  lemma RollbackPage(t: Tree, t1: Tree, t2: Tree, root: nat, lo: nat, hi: nat, p: nat)
    requires TreeOk(t) && IsRoot(t, root) && lo <= hi < NVPN && p < |t.role|
    requires Grown(t, t1, root, lo, hi) && Unmapped(t1, t2, root, lo, hi, Free)
    requires forall v: nat :: lo <= v < hi ==> !Translate(t.pages, root, v).v
    ensures RoleStep(t, t2, root, lo, lo, p) && Kept(t, t2, p)
  {
    assert RoleStep(t, t1, root, lo, hi, p) && Kept(t, t1, p) && LetGo(t1, t2, root, lo, hi, Free, p);
    if DataIn(t.role[p], root, lo, hi) { NotData(t, root, t.role[p].vpn, p); }
  }

  lemma NotData(t: Tree, root: nat, v: nat, p: nat)
    requires TreeOk(t) && IsRoot(t, root) && v < NVPN && !Translate(t.pages, root, v).v && p < |t.role|
    ensures t.role[p] != Data(root, v)
  {
    TranslateIs(t, root, v);
    assert PageOk(t, p);
  }

  /** kalloc and memset to zero. */
  method ZeroedPage(m: Memory) returns (r: Option<nat>)
    requires m.Valid()
    modifies m
    ensures m.Valid()
    ensures r.None? <==> old(m.freelist) == []
    ensures r.None? ==> m.T() == old(m.T()) && m.freelist == []
    ensures r.Some? ==> |m.freelist| == |old(m.freelist)| - 1
    ensures r.Some? ==> r.value < |old(m.role)| && old(m.role)[r.value] == Free && Given(m.T(), r.value)
    ensures r.Some? ==> m.T() == WithPage(old(m.T()), r.value, Filled(0), Held)
  {
    ghost var t := m.T();
    r := m.Kalloc();
    if r.Some? {
      WithPageOk(t, r.value, Filled(0), Held);
      m.pages := m.pages[r.value := Filled(0)];
      assert m.T() == WithPage(t, r.value, Filled(0), Held);
    }
  }

  /** kfree of a page that mappages could not map. */
  method GiveBack(m: Memory, ghost t: Tree, root: nat, ghost v: nat, p: nat, ghost page: Page, ghost perm: Pte)
    requires TreeOk(t) && p < |t.role| && t.role[p] == Free && IsRoot(t, root)
    requires m.Valid() && Mapped(WithPage(t, p, page, Held), m.T(), root, v, 0, perm, p, true)
    modifies m
    ensures m.Valid() && Grown(t, m.T(), root, v, v) && m.dir == old(m.dir) && |m.freelist| == |old(m.freelist)| + 1
  {
    AllocUndo(t, m.T(), root, v, p, page, perm);
    assert MappedRole(WithPage(t, p, page, Held), m.T(), root, v, 0, p, true, p);
    WithPageOk(m.T(), p, Filled(1), Free);
    m.Kfree(p);
  }

  /** mappages of one page just taken from the free list and filled, and kfree of it if that fails. */
  method MapHeld(m: Memory, ghost t: Tree, root: nat, a: nat, p: nat, ghost page: Page, perm: Pte) returns (ok: bool)
    requires TreeOk(t) && p < |t.role| && t.role[p] == Free && IsRoot(t, root)
    requires m.Valid() && m.T() == WithPage(t, p, page, Held) && Given(m.T(), p)
    requires a % PGSIZE == 0 && a / PGSIZE < MAXVPN && !Translate(t.pages, root, a / PGSIZE).v
             && (perm.r || perm.w || perm.x)
    modifies m
    ensures m.Valid()
    ensures ok ==>
              && Grown(t, m.T(), root, a / PGSIZE, a / PGSIZE + 1)
              && Backed(t, m.T(), root, a / PGSIZE, p, page, perm)
    ensures !ok ==> Grown(t, m.T(), root, a / PGSIZE, a / PGSIZE) && |m.freelist| == 1
    ensures Dug(old(m.dir), |old(m.freelist)|, m.dir, if ok then |m.freelist| else 0, Path(root, a / PGSIZE))
    ensures ok <==> Path(root, a / PGSIZE) <= m.dir.Keys
  {
    ghost var k;
    assert (a + PGSIZE - 1) / PGSIZE == a / PGSIZE && p * PGSIZE / PGSIZE == p;
    LooseTranslate(t, p, page, Held, root, a / PGSIZE);
    ok, k := m.Mappages(root, a, PGSIZE, p * PGSIZE, perm, true);
    if ok {
      AllocOne(t, m.T(), root, a / PGSIZE, p, page, perm);
    } else {
      GiveBack(m, t, root, a / PGSIZE, p, page, perm);
    }
  }

  /** One round of uvmalloc. */
  method AllocRound(m: Memory, root: nat, a: nat) returns (ok: bool)
    requires m.Valid() && IsRoot(m.T(), root) && a % PGSIZE == 0 && a / PGSIZE < MAXVPN
             && !Translate(m.pages, root, a / PGSIZE).v
    modifies m
    ensures m.Valid()
    ensures ok ==> Alloced(old(m.T()), m.T(), root, a / PGSIZE, a / PGSIZE + 1)
    ensures ok ==> Fits(old(m.dir), |old(m.freelist)|, m.dir, |m.freelist|, root, a / PGSIZE)
    ensures !ok ==> Grown(old(m.T()), m.T(), root, a / PGSIZE, a / PGSIZE)
    ensures !ok ==> Short(old(m.dir), |old(m.freelist)|, m.dir, root, a / PGSIZE)
    ensures !ok ==> |m.freelist| == if old(m.freelist) == [] then 0 else 1
  {
    ghost var t := m.T();
    GrownRefl(t, root, a / PGSIZE);
    var mem := ZeroedPage(m);
    if mem.None? { return false; }
    ok := MapHeld(m, t, root, a, mem.value, Filled(0), UserPte(0));
    assert ok ==> FreshAt(t, m.T(), root, a / PGSIZE);
  }

  /** A page that was free is a page-table page made on the way. */
  ghost predicate NewTable(t: Tree, t': Tree, p: nat)
    requires Sized(t, t') && p < |t.role|
  {
    && t.role[p] == Free && t'.role[p].Table?
    && t'.role[p].node in t'.dir && t'.role[p].node !in t.dir && t'.dir[t'.role[p].node] == p
  }

  ghost predicate SameOrTable(t: Tree, t': Tree, p: nat)
    requires Sized(t, t') && p < |t.role|
  {
    t'.role[p] == t.role[p] || NewTable(t, t', p)
  }

  /** What a failed call leaves behind: every page has its old role, but for the tables that were not there before,
      each in a page that was free. */
  ghost predicate LeftTables(t: Tree, t': Tree) {
    && Sized(t, t') && t.dir.Keys <= t'.dir.Keys
    && (forall p {:trigger SameOrTable(t, t', p)} :: 0 <= p < |t.role| ==> SameOrTable(t, t', p))
    && (forall n :: n in t'.dir && n !in t.dir ==> t'.dir[n] < |t.role| && NewTable(t, t', t'.dir[n]))
  }

  lemma LeftTablesOf(t: Tree, t': Tree, root: nat, lo: nat)
    requires TreeOk(t) && TreeOk(t') && Grown(t, t', root, lo, lo)
    requires t.dir.Keys <= t'.dir.Keys && forall n :: n in t.dir ==> t'.dir[n] == t.dir[n]
    ensures LeftTables(t, t')
  {
    forall p | 0 <= p < |t.role| ensures SameOrTable(t, t', p) {
      assert RoleStep(t, t', root, lo, lo, p) && PageOk(t', p);
      assert t'.role[p].Table? && t'.role[p].node in t.dir ==> NodeOk(t, t'.role[p].node);
    }
    forall n | n in t'.dir && n !in t.dir ensures t'.dir[n] < |t.role| && NewTable(t, t', t'.dir[n]) {
      assert NodeOk(t', n) && SameOrTable(t, t', t'.dir[n]) && PageOk(t, t'.dir[n]);
    }
  }

  /** The free pages are those from before if and only if no table was made. */
  lemma FreeAgain(t: Tree, t': Tree)
    requires LeftTables(t, t') && forall n :: n in t.dir ==> t'.dir[n] == t.dir[n]
    ensures (forall p :: 0 <= p < |t.role| ==> (t'.role[p] == Free <==> t.role[p] == Free)) <==> t'.dir == t.dir
  {
    if n :| n in t'.dir && n !in t.dir {
      assert NewTable(t, t', t'.dir[n]);
    } else {
      assert t'.dir.Keys == t.dir.Keys;
      forall p | 0 <= p < |t.role| ensures t'.role[p] == Free <==> t.role[p] == Free { assert SameOrTable(t, t', p); }
    }
  }

  /** Growth of lo to hi failed at page `stop`, with f free pages before: mappings and data pages are as they were,
      every page short of a new table is back on the free list, and the tables are those of the pages before `stop` and
      some of its own. */
  ghost predicate Failed(t: Tree, f: nat, t': Tree, f': nat, root: nat, lo: nat, hi: nat, stop: nat) {
    && lo <= stop < hi && Grown(t, t', root, lo, lo) && LeftTables(t, t')
    && Stuck(t.dir, f, t'.dir, root, lo, stop) && f' + |t'.dir| == f + |t.dir|
  }

  /** After a failure the free pages are those from before if and only if no page up to hi missed a table, or there were
      too few to reach `first`, the first one that did, and make a table for it. */
  lemma FreeAfterFailure(t: Tree, f: nat, t': Tree, f': nat, root: nat, lo: nat, hi: nat, stop: nat, first: nat)
    requires Failed(t, f, t', f', root, lo, hi, stop) && lo <= first <= hi
    requires Missing(t.dir, root, lo, first) == {} && (first < hi ==> !(Path(root, first) <= t.dir.Keys))
    ensures (forall p :: 0 <= p < |t.role| ==> (t'.role[p] == Free <==> t.role[p] == Free)) <==>
              first == hi || f <= first - lo + 1
  {
    NoTableLeft(t.dir, f, t'.dir, root, lo, stop, hi, first);
    FreeAgain(t, t');
  }

  /** Grows the address space with zeroed pages if and only if a page is free for each of them and for each missing
      table; otherwise gives every data page back, and keeps the tables made so far. */
  method Uvmalloc(m: Memory, root: nat, oldsz: nat, newsz: nat) returns (r: nat, ghost stop: nat)
    requires m.Valid() && IsRoot(m.T(), root) && newsz <= MAXVPN * PGSIZE
    requires forall v: nat :: PagesUp(oldsz) <= v < PagesUp(newsz) ==> !Translate(m.pages, root, v).v
    modifies m
    ensures m.Valid()
    ensures newsz < oldsz ==> r == oldsz && m.T() == old(m.T())
    ensures newsz >= oldsz && |old(m.freelist)| >= Cost(old(m.dir), root, PagesUp(oldsz), PagesUp(newsz)) ==>
              && r == newsz && Alloced(old(m.T()), m.T(), root, PagesUp(oldsz), PagesUp(newsz))
              && Progress(old(m.dir), |old(m.freelist)|, m.dir, |m.freelist|, root, PagesUp(oldsz), PagesUp(newsz))
    ensures newsz >= oldsz && |old(m.freelist)| < Cost(old(m.dir), root, PagesUp(oldsz), PagesUp(newsz)) ==>
              r == 0 && Failed(old(m.T()), |old(m.freelist)|, m.T(), |m.freelist|, root, PagesUp(oldsz),
                               PagesUp(newsz), stop)
  {
    if newsz < oldsz { return oldsz, 0; }
    var ok;
    ok, stop := GrowLoop(m, root, PagesUp(oldsz) * PGSIZE, newsz);
    r := if ok then newsz else 0;
  }

  /** An address space with no table but its root and two free pages: growing it by a page takes one of them for the
      page and the other for the level-1 table, fails for want of a third, and one page stays behind as that table. */
  method GrowEmpty(m: Memory, root: nat) returns (r: nat)
    requires m.Valid() && m.dir.Keys == {Node(root, 2, 0)} && m.dir[Node(root, 2, 0)] == root && |m.freelist| == 2
    requires forall v: nat :: v < NVPN ==> !Translate(m.pages, root, v).v
    modifies m
    ensures m.Valid() && r == 0 && |m.freelist| == 1 && m.dir.Keys == {Node(root, 2, 0), Node(root, 1, 0)}
    ensures !Translate(m.pages, root, 0).v && |m.pages| == |old(m.pages)|
  {
    ghost var t := m.T();
    TwoMissing(t.dir, root);
    assert IsRoot(t, root) && PagesUp(0) == 0 && PagesUp(PGSIZE) == 1;
    ghost var stop;
    r, stop := Uvmalloc(m, root, 0, PGSIZE);
    assert Agree(t, m.T(), root, 0);
    OneMade(t, m.T(), root);
  }

  /** Four pages of memory, one of them the kernel's, come to that. */
  method GrowFresh() returns (m: Memory, root: nat, r: nat)
    ensures fresh(m) && m.Valid() && |m.pages| == 4 && r == 0 && |m.freelist| == 1
    ensures m.dir.Keys == {Node(root, 2, 0), Node(root, 1, 0)} && !Translate(m.pages, root, 0).v
  {
    m := new Memory(PGSIZE, 4 * PGSIZE);
    var o := m.Uvmcreate();
    root := o.value;
    r := GrowEmpty(m, root);
  }

  /** Page 0 of an empty tree needs two tables. */
  lemma TwoMissing(d: Dir, root: nat)
    requires d.Keys == {Node(root, 2, 0)}
    ensures Cost(d, root, 0, 1) == 3 && Cost(d, root, 0, 0) == 0
  {
    assert Paths(root, 0, 1) == Paths(root, 0, 0) + Path(root, 0);
    assert Missing(d, root, 0, 1) == {Node(root, 1, 0), Node(root, 0, 0)};
  }

  lemma OneMade(t: Tree, t': Tree, root: nat)
    requires TreeOk(t') && t.dir.Keys == {Node(root, 2, 0)} && Stuck(t.dir, 2, t'.dir, root, 0, 0)
    ensures t'.dir.Keys == {Node(root, 2, 0), Node(root, 1, 0)} && |t'.dir| == |t.dir| + 1
  {
    TwoMissing(t.dir, root);
    var a, b, c := Node(root, 2, 0), Node(root, 1, 0), Node(root, 0, 0);
    assert Paths(root, 0, 1) == {b, c};
    KeysSize(t.dir);
    KeysSize(t'.dir);
    assert c in t'.dir ==> NodeOk(t', c) && Parent(c) == b;
    assert b !in t'.dir ==> t'.dir.Keys == {a};
    assert c in t'.dir ==> t'.dir.Keys == {a, b, c};
  }

  /** The loop of uvmalloc. */
  method GrowLoop(m: Memory, root: nat, base: nat, newsz: nat) returns (ok: bool, ghost stop: nat)
    requires m.Valid() && IsRoot(m.T(), root) && newsz <= MAXVPN * PGSIZE && base % PGSIZE == 0
             && base / PGSIZE <= PagesUp(newsz)
    requires forall v: nat :: base / PGSIZE <= v < PagesUp(newsz) ==> !Translate(m.pages, root, v).v
    modifies m
    ensures m.Valid()
    ensures ok <==> |old(m.freelist)| >= Cost(old(m.dir), root, base / PGSIZE, PagesUp(newsz))
    ensures ok ==> Alloced(old(m.T()), m.T(), root, base / PGSIZE, PagesUp(newsz))
    ensures ok ==> Progress(old(m.dir), |old(m.freelist)|, m.dir, |m.freelist|, root, base / PGSIZE, PagesUp(newsz))
    ensures !ok ==> Failed(old(m.T()), |old(m.freelist)|, m.T(), |m.freelist|, root, base / PGSIZE, PagesUp(newsz),
                           stop)
  {
    ghost var t, f := m.T(), |m.freelist|;
    ghost var lo, hi := base / PGSIZE, PagesUp(newsz);
    GrownRefl(t, root, lo);
    ProgressStart(t.dir, f, root, lo);
    stop := 0;
    var a := base;
    ghost var v := lo;
    while a < newsz
      invariant a == v * PGSIZE && lo <= v <= hi && m.Valid()
      invariant Alloced(t, m.T(), root, lo, v) && Progress(t.dir, f, m.dir, |m.freelist|, root, lo, v)
      decreases newsz - a
    {
      ok := GrowRound(m, t, f, root, base, a, lo, v, hi);
      if !ok {
        StuckShort(t.dir, f, m.dir, root, lo, v, hi);
        return false, v;
      }
      a, v := a + PGSIZE, v + 1;
    }
    ProgressCost(t.dir, f, m.dir, |m.freelist|, root, lo, v);
    assert v == hi;
    ok := true;
  }

  /** One round, and the way out when it fails. */
  method GrowRound(m: Memory, ghost t: Tree, ghost f: nat, root: nat, base: nat, a: nat, ghost lo: nat, ghost v: nat,
                   ghost hi: nat)
    returns (ok: bool)
    requires m.Valid() && TreeOk(t) && IsRoot(t, root) && base == lo * PGSIZE && a == v * PGSIZE && lo <= v < hi
             && v < MAXVPN
    requires Alloced(t, m.T(), root, lo, v) && Progress(t.dir, f, m.dir, |m.freelist|, root, lo, v)
    requires forall u: nat :: lo <= u < hi ==> !Translate(t.pages, root, u).v
    modifies m
    ensures m.Valid()
    ensures ok ==> Alloced(t, m.T(), root, lo, v + 1) && Progress(t.dir, f, m.dir, |m.freelist|, root, lo, v + 1)
    ensures !ok ==> Failed(t, f, m.T(), |m.freelist|, root, lo, hi, v)
  {
    ghost var t1, f1 := m.T(), |m.freelist|;
    assert base / PGSIZE == lo && a / PGSIZE == v && Agree(t, t1, root, v);
    ok := AllocRound(m, root, a);
    if ok {
      AllocedTrans(t, t1, m.T(), root, lo, v, v + 1);
      ProgressNext(t.dir, f, t1.dir, f1, m.dir, |m.freelist|, root, lo, v);
    } else {
      AllocedGrown(t, t1, m.T(), root, lo, v);
      StuckAt(t.dir, f, t1.dir, f1, m.dir, root, lo, v);
      Undo(m, t, root, base, a);
    }
  }

  lemma AllocedGrown(t: Tree, t1: Tree, t2: Tree, root: nat, lo: nat, v: nat)
    requires Alloced(t, t1, root, lo, v) && Grown(t1, t2, root, v, v) && lo <= v < NVPN && IsRoot(t, root)
    ensures Alloced(t, t2, root, lo, v)
  {
    AllocedTrans(t, t1, t2, root, lo, v, v);
  }

  method Undo(m: Memory, ghost t: Tree, root: nat, base: nat, a: nat)
    requires m.Valid() && TreeOk(t) && IsRoot(t, root) && base % PGSIZE == 0 && a % PGSIZE == 0
             && base <= a < MAXVPN * PGSIZE
    requires Alloced(t, m.T(), root, base / PGSIZE, a / PGSIZE)
    requires forall v: nat :: base / PGSIZE <= v < a / PGSIZE ==> !Translate(t.pages, root, v).v
    requires t.dir.Keys <= m.dir.Keys && forall n :: n in t.dir ==> m.dir[n] == t.dir[n]
    modifies m
    ensures m.Valid() && Grown(t, m.T(), root, base / PGSIZE, base / PGSIZE) && LeftTables(t, m.T())
    ensures m.dir == old(m.dir) && |m.freelist| == |old(m.freelist)| + (a / PGSIZE - base / PGSIZE)
  {
    ghost var t1 := m.T();
    forall v: nat | base / PGSIZE <= v < a / PGSIZE ensures m.Mappable(root, v, true) {
      assert FreshAt(t, t1, root, v);
    }
    assert PagesUp(a) == a / PGSIZE && PagesUp(base) == base / PGSIZE;
    var r := Uvmdealloc(m, root, a, base);
    if base < a { Rollback(t, t1, m.T(), root, base / PGSIZE, a / PGSIZE); }
    LeftTablesOf(t, m.T(), root, base / PGSIZE);
  }

  // ---- uvmcopy

  /** Page v of `dst` is a new page with the bytes and the flags of page v of `src`. */
  ghost predicate CopyAt(t: Tree, t': Tree, src: nat, dst: nat, v: nat) {
    var o := Translate(t.pages, src, v);
    var e := Translate(t'.pages, dst, v);
    && o.ppn < |t.pages| && Backed(t, t', dst, v, e.ppn, t.pages[o.ppn], o)
  }

  ghost predicate Copied(t: Tree, t': Tree, src: nat, dst: nat, hi: nat) {
    && Grown(t, t', dst, 0, hi)
    && (forall v: nat {:trigger CopyAt(t, t', src, dst, v)} :: v < hi ==> CopyAt(t, t', src, dst, v))
  }

  lemma CopiedNext(t: Tree, t1: Tree, t2: Tree, src: nat, dst: nat, hi: nat, p: nat)
    requires Copied(t, t1, src, dst, hi) && Grown(t1, t2, dst, hi, hi + 1) && hi < NVPN
    requires IsRoot(t, src) && IsRoot(t, dst) && src != dst
    requires Translate(t1.pages, src, hi).ppn < |t1.pages| && t.role[Translate(t1.pages, src, hi).ppn].Data?
    requires Backed(t1, t2, dst, hi, p, t1.pages[Translate(t1.pages, src, hi).ppn], Translate(t1.pages, src, hi))
    ensures Copied(t, t2, src, dst, hi + 1)
  {
    GrownWiden(t1, t2, dst, 0, hi, hi + 1);
    GrownTrans(t, t1, t2, dst, 0, hi, hi + 1);
    assert Agree(t, t1, src, hi) && Kept(t, t1, Translate(t.pages, src, hi).ppn) && RoleStep(t, t1, dst, 0, hi, p);
    forall v: nat | v < hi + 1 ensures CopyAt(t, t2, src, dst, v) {
      if v < hi {
        assert CopyAt(t, t1, src, dst, v) && Agree(t1, t2, dst, v);
        var q := Translate(t1.pages, dst, v).ppn;
        assert RoleStep(t1, t2, dst, hi, hi + 1, q) && Kept(t1, t2, q);
      }
    }
  }

  /** One round of uvmcopy. */
  method CopyRound(m: Memory, src: nat, dst: nat, i: nat) returns (ok: bool, ghost p: nat)
    requires m.Valid() && IsRoot(m.T(), src) && IsRoot(m.T(), dst) && src != dst && i % PGSIZE == 0
             && i / PGSIZE < MAXVPN
    requires Owned(m.role, Translate(m.pages, src, i / PGSIZE), src, i / PGSIZE)
             && !Translate(m.pages, dst, i / PGSIZE).v
    modifies m
    ensures m.Valid()
    ensures ok ==> Grown(old(m.T()), m.T(), dst, i / PGSIZE, i / PGSIZE + 1)
    ensures ok ==> Backed(old(m.T()), m.T(), dst, i / PGSIZE, p,
                          old(m.pages)[old(Translate(m.pages, src, i / PGSIZE)).ppn],
                          old(Translate(m.pages, src, i / PGSIZE)))
    ensures ok ==> Fits(old(m.dir), |old(m.freelist)|, m.dir, |m.freelist|, dst, i / PGSIZE)
    ensures !ok ==> Grown(old(m.T()), m.T(), dst, i / PGSIZE, i / PGSIZE)
    ensures !ok ==> Short(old(m.dir), |old(m.freelist)|, m.dir, dst, i / PGSIZE)
    ensures !ok ==> |m.freelist| == if old(m.freelist) == [] then 0 else 1
  {
    ghost var t := m.T();
    ghost var v := i / PGSIZE;
    GrownRefl(t, dst, v);
    p := 0;
    var e := m.Lookup(src, i);
    assert PageOk(t, e.ppn);
    LeafHasAccess(t, src, v);
    var mem := FilledPage(m, e.ppn);
    if mem.None? { return false, 0; }
    p := mem.value;
    ok := MapHeld(m, t, dst, i, mem.value, t.pages[e.ppn], e);
  }

  /** kalloc, and memmove of a whole page. */
  method FilledPage(m: Memory, from: nat) returns (r: Option<nat>)
    requires m.Valid() && from < |m.pages| && m.role[from].Data? && m.pages[from].Bytes? && |m.pages[from].b| == PGSIZE
    modifies m
    ensures m.Valid()
    ensures r.None? <==> old(m.freelist) == []
    ensures r.None? ==> m.T() == old(m.T()) && m.freelist == []
    ensures r.Some? ==> |m.freelist| == |old(m.freelist)| - 1
    ensures r.Some? ==> r.value < |old(m.role)| && old(m.role)[r.value] == Free && Given(m.T(), r.value)
    ensures r.Some? ==> m.T() == WithPage(old(m.T()), r.value, old(m.pages)[from], Held)
  {
    ghost var t := m.T();
    r := m.Kalloc();
    if r.Some? {
      WithPageOk(t, r.value, t.pages[from], Held);
      m.pages := m.pages[r.value := m.pages[from]];
      assert m.T() == WithPage(t, r.value, t.pages[from], Held);
    }
  }

  /** Copies the first sz bytes' pages of one address space into another if and only if a page is free for each of them
      and for each missing table; otherwise leaves the other's mappings as they were, and keeps the tables made so
      far. */
  method Uvmcopy(m: Memory, src: nat, dst: nat, sz: nat) returns (ok: bool, ghost stop: nat)
    requires m.Valid() && IsRoot(m.T(), src) && IsRoot(m.T(), dst) && src != dst && sz <= MAXVPN * PGSIZE
    requires forall v: nat {:trigger m.Mappable(src, v, true)} :: v < PagesUp(sz) ==> m.Mappable(src, v, true)
    requires forall v: nat :: v < PagesUp(sz) ==> !Translate(m.pages, dst, v).v
    modifies m
    ensures m.Valid()
    ensures ok <==> |old(m.freelist)| >= Cost(old(m.dir), dst, 0, PagesUp(sz))
    ensures ok ==> Copied(old(m.T()), m.T(), src, dst, PagesUp(sz))
    ensures ok ==> Progress(old(m.dir), |old(m.freelist)|, m.dir, |m.freelist|, dst, 0, PagesUp(sz))
    ensures !ok ==> Failed(old(m.T()), |old(m.freelist)|, m.T(), |m.freelist|, dst, 0, PagesUp(sz), stop)
  {
    ghost var t, f := m.T(), |m.freelist|;
    ghost var hi := PagesUp(sz);
    GrownRefl(t, dst, 0);
    ProgressStart(t.dir, f, dst, 0);
    stop := 0;
    var i := 0;
    ghost var v := 0;
    while i < sz
      invariant i == v * PGSIZE && v <= hi && m.Valid()
      invariant Copied(t, m.T(), src, dst, v) && Progress(t.dir, f, m.dir, |m.freelist|, dst, 0, v)
      decreases sz - i
    {
      assert old(m.Mappable(src, v, true));
      ok := CopyStep(m, t, f, src, dst, i, v, hi);
      if !ok {
        StuckShort(t.dir, f, m.dir, dst, 0, v, hi);
        return false, v;
      }
      i, v := i + PGSIZE, v + 1;
    }
    ProgressCost(t.dir, f, m.dir, |m.freelist|, dst, 0, v);
    assert v == hi;
    ok := true;
  }

  /** One round, and the way out when it fails. */
  method CopyStep(m: Memory, ghost t: Tree, ghost f: nat, src: nat, dst: nat, i: nat, ghost v: nat, ghost hi: nat)
      returns (ok: bool)
    requires m.Valid() && TreeOk(t) && IsRoot(t, src) && IsRoot(t, dst) && src != dst && i == v * PGSIZE && v < MAXVPN
             && v < hi
    requires Copied(t, m.T(), src, dst, v) && Progress(t.dir, f, m.dir, |m.freelist|, dst, 0, v)
    requires Owned(t.role, Translate(t.pages, src, v), src, v)
    requires forall u: nat :: u < hi ==> !Translate(t.pages, dst, u).v
    modifies m
    ensures m.Valid()
    ensures ok ==> Copied(t, m.T(), src, dst, v + 1) && Progress(t.dir, f, m.dir, |m.freelist|, dst, 0, v + 1)
    ensures !ok ==> Failed(t, f, m.T(), |m.freelist|, dst, 0, hi, v)
  {
    ghost var t1, f1 := m.T(), |m.freelist|;
    assert i / PGSIZE == v;
    CopyReady(t, t1, src, dst, v);
    ghost var p;
    ok, p := CopyRound(m, src, dst, i);
    if ok {
      CopiedNext(t, t1, m.T(), src, dst, v, p);
      ProgressNext(t.dir, f, t1.dir, f1, m.dir, |m.freelist|, dst, 0, v);
    } else {
      StuckAt(t.dir, f, t1.dir, f1, m.dir, dst, 0, v);
      CopyBack(m, t, t1, src, dst, i);
    }
  }

  lemma CopyReady(t: Tree, t1: Tree, src: nat, dst: nat, v: nat)
    requires Copied(t, t1, src, dst, v) && IsRoot(t, src) && IsRoot(t, dst) && src != dst && v < NVPN
    requires Owned(t.role, Translate(t.pages, src, v), src, v)
    ensures Translate(t1.pages, src, v) == Translate(t.pages, src, v)
            && Translate(t1.pages, dst, v) == Translate(t.pages, dst, v)
    ensures Owned(t1.role, Translate(t1.pages, src, v), src, v)
  {
    assert Agree(t, t1, src, v) && Agree(t, t1, dst, v) && RoleStep(t, t1, dst, 0, v, Translate(t.pages, src, v).ppn);
  }

  /** The error path: everything mapped so far is unmapped and freed. */
  method CopyBack(m: Memory, ghost t: Tree, ghost t1: Tree, ghost src: nat, dst: nat, i: nat)
    requires m.Valid() && TreeOk(t) && IsRoot(t, dst) && i % PGSIZE == 0 && i < MAXVPN * PGSIZE
    requires Copied(t, t1, src, dst, i / PGSIZE) && Grown(t1, m.T(), dst, i / PGSIZE, i / PGSIZE)
    requires forall v: nat :: v < i / PGSIZE ==> !Translate(t.pages, dst, v).v
    requires t.dir.Keys <= m.dir.Keys && forall n :: n in t.dir ==> m.dir[n] == t.dir[n]
    modifies m
    ensures m.Valid() && Grown(t, m.T(), dst, 0, 0) && LeftTables(t, m.T())
    ensures m.dir == old(m.dir) && |m.freelist| == |old(m.freelist)| + i / PGSIZE
  {
    ghost var t2 := m.T();
    ghost var hi := i / PGSIZE;
    GrownWiden(t1, t2, dst, 0, hi, hi);
    GrownTrans(t, t1, t2, dst, 0, hi, hi);
    forall v: nat | v < hi ensures m.Mappable(dst, v, true) {
      assert CopyAt(t, t1, src, dst, v) && Agree(t1, t2, dst, v);
      assert RoleStep(t1, t2, dst, hi, hi, Translate(t1.pages, dst, v).ppn);
    }
    m.Uvmunmap(dst, 0, i / PGSIZE, true);
    Rollback(t, t2, m.T(), dst, 0, hi);
    LeftTablesOf(t, m.T(), dst, 0);
  }
}
