/** freewalk and uvmfree of kernel/vm.c: taking an address space apart. */
module FreeTables {
  import opened PageTable
  import opened VirtualMemory
  import opened UserMemory

  /** c is n, or hangs under it. */
  predicate Below(c: Node, n: Node) {
    c.root == n.root && (n.level == 2 || c == n || (n.level == 1 && c.level == 0 && c.prefix / 512 == n.prefix))
  }

  /** c hangs under one of the first i entries of n. */
  predicate Cut(c: Node, n: Node, i: nat) {
    && c.root == n.root && c.level < n.level
    && (n.level == 2 ==> (if c.level == 1 then c.prefix else c.prefix / 512) < i)
    && (n.level == 1 ==> c.prefix / 512 == n.prefix && c.prefix % 512 < i)
  }

  lemma CutNext(c: Node, n: Node, i: nat)
    requires NodeShape(c) && NodeShape(n) && n.level > 0 && i < NPTE
    ensures Cut(c, n, i + 1) <==> Cut(c, n, i) || Below(c, Child(n, i))
  {
  }

  lemma CutAll(c: Node, n: Node)
    requires NodeShape(c) && NodeShape(n)
    ensures Below(c, n) <==> c == n || Cut(c, n, NPTE)
  {
  }

  ghost predicate Empty(t: Tree, c: Node)
    requires c in t.dir
  {
    forall i :: 0 <= i < NPTE ==> !Slot(t.pages, t.dir[c], i).v
  }

  ghost predicate NoLeaves(t: Tree, n: Node) {
    forall c {:trigger Empty(t, c)} :: c in t.dir && c.level == 0 && Below(c, n) ==> Empty(t, c)
  }

  /** The page-table pages `gone` describes are free; every page not free is as it was, save `but`. */
  ghost predicate PageAfter(t: Tree, t': Tree, n: Node, i: nat, but: nat, p: nat)
    requires Sized(t, t') && p < |t.role|
  {
    && t'.role[p] == (if t.role[p].Table? && Cut(t.role[p].node, n, i) then Free else t.role[p])
    && (t'.role[p] != Free && p != but ==> t'.pages[p] == t.pages[p])
  }

  ghost predicate NodeAfter(t: Tree, t': Tree, n: Node, i: nat, c: Node) {
    && (c in t'.dir <==> c in t.dir && !Cut(c, n, i))
    && (c in t'.dir ==> t'.dir[c] == t.dir[c])
  }

  /** freewalk has dealt with the first i entries of n. */
  ghost predicate Trimmed(t: Tree, t': Tree, n: Node, i: nat) {
    && Sized(t, t') && n in t.dir && n in t'.dir && t.dir[n] < |t.pages|
    && (forall c {:trigger NodeAfter(t, t', n, i, c)} :: NodeAfter(t, t', n, i, c))
    && (forall p {:trigger PageAfter(t, t', n, i, t.dir[n], p)} :: 0 <= p < |t.role| ==>
        PageAfter(t, t', n, i, t.dir[n], p))
    && (forall j :: i <= j < NPTE ==> Slot(t'.pages, t.dir[n], j) == Slot(t.pages, t.dir[n], j))
  }

  ghost predicate PageFreed(t: Tree, t': Tree, n: Node, p: nat)
    requires Sized(t, t') && p < |t.role|
  {
    && t'.role[p] == (if t.role[p].Table? && Below(t.role[p].node, n) then Free else t.role[p])
    && (t'.role[p] != Free ==> t'.pages[p] == t.pages[p])
  }

  ghost predicate NodeFreed(t: Tree, t': Tree, n: Node, c: Node) {
    && (c in t'.dir <==> c in t.dir && !Below(c, n))
    && (c in t'.dir ==> t'.dir[c] == t.dir[c])
  }

  /** The page-table pages at and under n, and no others, have been freed. The entry that led to n is still there. */
  ghost predicate Freed(t: Tree, t': Tree, n: Node) {
    && Sized(t, t')
    && (forall c {:trigger NodeFreed(t, t', n, c)} :: NodeFreed(t, t', n, c))
    && (forall p {:trigger PageFreed(t, t', n, p)} :: 0 <= p < |t.role| ==> PageFreed(t, t', n, p))
  }

  /** After freewalk of the child under entry i of n, with that entry cleared. */
  ghost function Cleared(t: Tree, p: nat, i: nat): Tree
    requires p < |t.pages| && t.pages[p].Ptes? && i < |t.pages[p].e|
  {
    t.(pages := SetPte(t.pages, p, i, NoPte()))
  }

  lemma ClearedNode(t: Tree, t': Tree, n: Node, i: nat, c: Node)
    requires TreeOk(t) && n in t.dir && n.level > 0 && i < NPTE && Freed(t, t', Child(n, i)) && NodeOk(t, n)
    requires NodeFreed(t, t', Child(n, i), n) && PageFreed(t, t', Child(n, i), t.dir[n]) && c in t'.dir
    ensures NodeOk(Cleared(t', t.dir[n], i), c)
  {
    var t2 := Cleared(t', t.dir[n], i);
    assert NodeFreed(t, t', Child(n, i), c) && NodeOk(t, c) && PageFreed(t, t', Child(n, i), t.dir[c]);
    if c.level < 2 {
      assert NodeFreed(t, t', Child(n, i), Parent(c)) && NodeOk(t, Parent(c));
    }
    forall j | 0 <= j < NPTE ensures EntryOk(t2, c, j) {
      assert EntryOk(t, c, j);
      ClearedEntry(t, t', n, i, c, j);
    }
  }

  lemma ClearedEntry(t: Tree, t': Tree, n: Node, i: nat, c: Node, j: nat)
    requires TreeOk(t) && n in t.dir && n.level > 0 && i < NPTE && Freed(t, t', Child(n, i)) && NodeOk(t, n)
    requires NodeFreed(t, t', Child(n, i), n) && PageFreed(t, t', Child(n, i), t.dir[n])
    requires c in t.dir && c in t'.dir && t'.dir[c] == t.dir[c] && NodeOk(t, c) && !Below(c, Child(n, i)) && j < NPTE
    requires PageFreed(t, t', Child(n, i), t.dir[c]) && EntryOk(t, c, j)
    ensures EntryOk(Cleared(t', t.dir[n], i), c, j)
  {
    if c.level > 0 {
      var d := Child(c, j);
      assert NodeFreed(t, t', Child(n, i), d);
      assert d in t.dir ==> NodeOk(t, d);
    } else {
      var e := Slot(t.pages, t.dir[c], j);
      if e.v && e.u { assert PageFreed(t, t', Child(n, i), e.ppn); }
    }
  }

  lemma ClearedOk(t: Tree, t': Tree, n: Node, i: nat)
    requires TreeOk(t) && n in t.dir && n.level > 0 && i < NPTE && Freed(t, t', Child(n, i)) && NodeOk(t, n)
    requires NoLeaves(t, Child(n, i))
    ensures t.dir[n] < |t'.pages| && t'.pages[t.dir[n]] == t.pages[t.dir[n]] && TreeOk(Cleared(t', t.dir[n], i))
  {
    assert NodeFreed(t, t', Child(n, i), n) && PageFreed(t, t', Child(n, i), t.dir[n]);
    var t2 := Cleared(t', t.dir[n], i);
    forall c | c in t2.dir ensures NodeOk(t2, c) { ClearedNode(t, t', n, i, c); }
    forall p | 0 <= p < |t2.pages| ensures PageOk(t2, p) { ClearedPage(t, t', n, i, p); }
  }

  lemma ClearedPage(t: Tree, t': Tree, n: Node, i: nat, p: nat)
    requires TreeOk(t) && n in t.dir && n.level > 0 && i < NPTE && Freed(t, t', Child(n, i)) && NodeOk(t, n)
    requires NodeFreed(t, t', Child(n, i), n) && PageFreed(t, t', Child(n, i), t.dir[n]) && p < |t.pages|
    requires NoLeaves(t, Child(n, i))
    ensures PageOk(Cleared(t', t.dir[n], i), p)
  {
    assert PageOk(t, p) && PageFreed(t, t', Child(n, i), p);
    match t.role[p]
    case Table(c) =>
      assert NodeFreed(t, t', Child(n, i), c);
    case Data(root, vpn) =>
      var c := Node(root, 0, vpn / 512);
      assert NodeOk(t, c) && NodeFreed(t, t', Child(n, i), c) && PageFreed(t, t', Child(n, i), t.dir[c]);
      assert Below(c, Child(n, i)) ==> Empty(t, c);
      assert c != n && t.dir[c] != t.dir[n];
    case _ =>
  }

  // ---- the loop of freewalk

  lemma TrimStart(t: Tree, n: Node)
    requires TreeOk(t) && n in t.dir
    ensures Trimmed(t, t, n, 0)
  {
    assert NodeOk(t, n);
    forall c ensures NodeAfter(t, t, n, 0, c) { }
    forall p | 0 <= p < |t.role| ensures PageAfter(t, t, n, 0, t.dir[n], p) { }
  }

  lemma TrimSkip(t: Tree, t1: Tree, n: Node, i: nat, i': nat)
    requires TreeOk(t) && TreeOk(t1) && Trimmed(t, t1, n, i) && i < NPTE && i' == i + 1
             && !Slot(t1.pages, t.dir[n], i).v
    ensures Trimmed(t, t1, n, i')
  {
    assert NodeAfter(t, t1, n, i, n) && NodeOk(t1, n) && EntryOk(t1, n, i);
    forall c ensures NodeAfter(t, t1, n, i', c) {
      assert NodeAfter(t, t1, n, i, c);
      if c in t.dir { SkipNode(t, t1, n, i, c); }
    }
    forall p | 0 <= p < |t.role| ensures PageAfter(t, t1, n, i', t.dir[n], p) {
      assert PageAfter(t, t1, n, i, t.dir[n], p) && PageOk(t, p);
      if t.role[p].Table? { SkipNode(t, t1, n, i, t.role[p].node); }
    }
  }

  /** Nothing hangs under an invalid entry. */
  lemma SkipNode(t: Tree, t1: Tree, n: Node, i: nat, c: Node)
    requires TreeOk(t) && TreeOk(t1) && Trimmed(t, t1, n, i) && i < NPTE && n in t1.dir && EntryOk(t1, n, i)
             && NodeOk(t1, n)
    requires t1.dir[n] == t.dir[n] && !Slot(t1.pages, t.dir[n], i).v && c in t.dir
    ensures Cut(c, n, i + 1) <==> Cut(c, n, i)
  {
    assert NodeOk(t, c) && NodeAfter(t, t1, n, i, c);
    if n.level > 0 {
      CutNext(c, n, i);
      assert c in t1.dir ==> NodeOk(t1, c);
      if c.level < 2 && Parent(c) in t1.dir { assert NodeOk(t1, Parent(c)); }
    }
  }

  lemma TrimNext(t: Tree, t1: Tree, t2: Tree, n: Node, i: nat, i': nat)
    requires TreeOk(t) && TreeOk(t1) && Trimmed(t, t1, n, i) && i < NPTE && i' == i + 1 && n.level > 0 && NodeOk(t1, n)
    requires Freed(t1, t2, Child(n, i)) && t1.dir[n] == t.dir[n]
    requires t.dir[n] < |t2.pages| && t2.pages[t.dir[n]] == t1.pages[t.dir[n]]
    ensures Trimmed(t, Cleared(t2, t.dir[n], i), n, i')
  {
    var t3 := Cleared(t2, t.dir[n], i);
    assert NodeFreed(t1, t2, Child(n, i), n);
    forall c ensures NodeAfter(t, t3, n, i', c) {
      assert NodeAfter(t, t1, n, i, c) && NodeFreed(t1, t2, Child(n, i), c);
      if c in t.dir { assert NodeOk(t, c); CutNext(c, n, i); }
    }
    forall p | 0 <= p < |t.role| ensures PageAfter(t, t3, n, i', t.dir[n], p) {
      assert PageAfter(t, t1, n, i, t.dir[n], p) && PageFreed(t1, t2, Child(n, i), p) && PageOk(t, p);
      if t.role[p].Table? { assert NodeOk(t, t.role[p].node); CutNext(t.role[p].node, n, i); }
    }
  }

  lemma NoLeavesAfter(t: Tree, t1: Tree, n: Node, i: nat)
    requires TreeOk(t) && TreeOk(t1) && Trimmed(t, t1, n, i) && NoLeaves(t, n) && i < NPTE
    ensures n.level > 0 ==> NoLeaves(t1, Child(n, i))
    ensures n.level == 0 ==> !Slot(t1.pages, t.dir[n], i).v
  {
    assert NodeOk(t, n);
    if n.level > 0 {
      forall c | c in t1.dir && c.level == 0 && Below(c, Child(n, i)) ensures Empty(t1, c) {
        assert NodeAfter(t, t1, n, i, c) && Empty(t, c) && NodeOk(t, c) && NodeOk(t1, c);
        assert PageAfter(t, t1, n, i, t.dir[n], t.dir[c]);
        assert forall j :: Slot(t1.pages, t1.dir[c], j) == Slot(t.pages, t.dir[c], j);
      }
    } else {
      assert Empty(t, n);
    }
  }

  /** The last step: the page of n itself goes. */
  lemma TrimLast(t: Tree, t1: Tree, t2: Tree, n: Node)
    requires TreeOk(t) && Trimmed(t, t1, n, NPTE)
    requires t2 == Tree(t1.pages[t.dir[n] := Filled(1)], t1.role[t.dir[n] := Free], t1.dir - {n})
    ensures Freed(t, t2, n)
  {
    assert NodeOk(t, n);
    forall c ensures NodeFreed(t, t2, n, c) {
      assert NodeAfter(t, t1, n, NPTE, c);
      if c in t.dir { assert NodeOk(t, c); CutAll(c, n); }
    }
    forall p | 0 <= p < |t.role| ensures PageFreed(t, t2, n, p) {
      assert PageAfter(t, t1, n, NPTE, t.dir[n], p) && PageOk(t, p);
      if t.role[p].Table? { assert NodeOk(t, t.role[p].node); CutAll(t.role[p].node, n); }
    }
  }

  /** Frees the page-table pages at and under n, each once. */
  method Freewalk(m: Memory, p: nat, ghost n: Node)
    requires m.Valid() && n in m.dir && m.dir[n] == p && NoLeaves(m.T(), n)
    modifies m
    ensures Freed(old(m.T()), m.T(), n) && FreeOk(m.freelist, m.role)
    decreases n.level
  {
    ghost var t := m.T();
    TrimStart(t, n);
    var i := 0;
    while i < NPTE
      invariant 0 <= i <= NPTE && m.Valid() && Trimmed(t, m.T(), n, i)
    {
      FreeEntry(m, p, n, t, i);
      i := i + 1;
    }
    ghost var t1 := m.T();
    assert NodeAfter(t, t1, n, NPTE, n) && NodeOk(t1, n);
    m.role := m.role[p := Held];
    m.dir := m.dir - {n};
    m.Kfree(p);
    assert m.T() == Tree(t1.pages[p := Filled(1)], t1.role[p := Free], t1.dir - {n});
    TrimLast(t, t1, m.T(), n);
  }

  /** Entry i: free what hangs under it, then clear it. A leaf here would be a panic; there is none. */
  method FreeEntry(m: Memory, p: nat, ghost n: Node, ghost t: Tree, i: nat)
    requires m.Valid() && TreeOk(t) && NoLeaves(t, n) && Trimmed(t, m.T(), n, i) && t.dir[n] == p && i < NPTE
    modifies m
    ensures m.Valid() && Trimmed(t, m.T(), n, i + 1)
    decreases n.level, 0
  {
    ghost var t1 := m.T();
    assert NodeAfter(t, t1, n, i, n) && NodeOk(t1, n) && EntryOk(t1, n, i);
    NoLeavesAfter(t, t1, n, i);
    var e := m.pages[p].e[i];
    if e.v && !(e.r || e.w || e.x) {
      Freewalk(m, e.ppn, Child(n, i));
      ghost var t2 := m.T();
      ClearedOk(t1, t2, n, i);
      TrimNext(t, t1, t2, n, i, i + 1);
      m.pages := m.pages[p := Ptes(m.pages[p].e[i := NoPte()])];
      assert m.T() == Cleared(t2, p, i);
      FirstAfter(m, t1, t2, Child(n, i));
    } else {
      TrimSkip(t, t1, n, i, i + 1);
    }
  }

  lemma FirstAfter(m: Memory, t1: Tree, t2: Tree, n: Node)
    requires Freed(t1, t2, n) && m.role == t2.role && 0 < m.first <= |t1.role|
    requires forall p :: 0 <= p < m.first ==> t1.role[p] == Kernel
    ensures m.first <= |m.role| && forall p :: 0 <= p < m.first ==> m.role[p] == Kernel
  {
    forall p | 0 <= p < m.first ensures m.role[p] == Kernel { assert PageFreed(t1, t2, n, p); }
  }

  // ---- uvmfree

  ghost predicate OfSpace(r: Role, root: nat) {
    TableOf(r, root) || (r.Data? && r.root == root)
  }

  ghost predicate PageReturned(t: Tree, t': Tree, root: nat, p: nat)
    requires Sized(t, t') && p < |t.role|
  {
    && t'.role[p] == (if OfSpace(t.role[p], root) then Free else t.role[p])
    && (t'.role[p] == Held || t'.role[p].Data? ==> t'.pages[p] == t.pages[p])
  }

  /** Every page of the address space is free again, once; the other address spaces are as they were. */
  ghost predicate Returned(t: Tree, t': Tree, root: nat) {
    && Sized(t, t')
    && (forall r: nat :: IsRoot(t', r) <==> IsRoot(t, r) && r != root)
    && (forall r: nat, v: nat {:trigger Agree(t, t', r, v)} :: IsRoot(t, r) && r != root && v < NVPN ==>
        Agree(t, t', r, v))
    && (forall p {:trigger PageReturned(t, t', root, p)} :: 0 <= p < |t.role| ==> PageReturned(t, t', root, p))
  }

  lemma AllInvalid(t: Tree, root: nat, c: Node)
    requires TreeOk(t) && IsRoot(t, root) && c in t.dir && c.level == 0 && c.root == root
    requires forall v: nat :: v < NVPN ==> !Translate(t.pages, root, v).v
    ensures Empty(t, c)
  {
    assert NodeOk(t, c);
    forall i | 0 <= i < NPTE ensures !Slot(t.pages, t.dir[c], i).v {
      TranslateIs(t, root, c.prefix * 512 + i);
      assert (c.prefix * 512 + i) / 512 == c.prefix && (c.prefix * 512 + i) % 512 == i;
    }
  }

  /** With its root freed too, what is left is a tree again. */
  lemma FreedRootNode(t: Tree, t': Tree, root: nat, c: Node)
    requires TreeOk(t) && Freed(t, t', Node(root, 2, 0)) && c in t'.dir
    ensures c.root != root && c in t.dir && t'.dir[c] == t.dir[c] && NodeOk(t, c) && NodeOk(t', c)
    ensures t'.pages[t.dir[c]] == t.pages[t.dir[c]]
  {
    var n := Node(root, 2, 0);
    assert NodeFreed(t, t', n, c) && NodeOk(t, c) && PageFreed(t, t', n, t.dir[c]);
    if c.level < 2 { assert NodeFreed(t, t', n, Parent(c)); }
    forall i | 0 <= i < NPTE ensures EntryOk(t', c, i) {
      assert EntryOk(t, c, i);
      if c.level > 0 {
        assert NodeFreed(t, t', n, Child(c, i));
      } else if Slot(t.pages, t.dir[c], i).u {
        assert PageFreed(t, t', n, Slot(t.pages, t.dir[c], i).ppn);
      }
    }
  }

  lemma FreedRootOk(t: Tree, t': Tree, root: nat)
    requires TreeOk(t) && IsRoot(t, root) && Freed(t, t', Node(root, 2, 0))
    requires forall p :: 0 <= p < |t.role| ==> !(t.role[p].Data? && t.role[p].root == root)
    ensures TreeOk(t')
  {
    var n := Node(root, 2, 0);
    forall c | c in t'.dir ensures NodeOk(t', c) { FreedRootNode(t, t', root, c); }
    forall p | 0 <= p < |t'.pages| ensures PageOk(t', p) {
      assert PageOk(t, p) && PageFreed(t, t', n, p);
      match t.role[p]
      case Table(c) => assert NodeFreed(t, t', n, c);
      case Data(r, vpn) =>
        assert NodeFreed(t, t', n, Node(r, 0, vpn / 512)) && NodeOk(t, Node(r, 0, vpn / 512));
        assert PageFreed(t, t', n, t.dir[Node(r, 0, vpn / 512)]);
      case _ =>
    }
  }

  lemma FreedRootTranslate(t: Tree, t': Tree, root: nat, r: nat, v: nat)
    requires TreeOk(t) && TreeOk(t') && Freed(t, t', Node(root, 2, 0)) && IsRoot(t, r) && r != root && v < NVPN
    ensures IsRoot(t', r) && Agree(t, t', r, v)
  {
    assert NodeFreed(t, t', Node(root, 2, 0), Node(r, 2, 0)) && NodeFreed(t, t', Node(root, 2, 0), Node(r, 0, v / 512));
    TranslateIs(t, r, v);
    TranslateIs(t', r, v);
    if Node(r, 0, v / 512) in t'.dir { FreedRootNode(t, t', root, Node(r, 0, v / 512)); }
  }

  lemma ReturnedOf(t: Tree, t1: Tree, t2: Tree, root: nat, hi: nat)
    requires TreeOk(t) && TreeOk(t1) && TreeOk(t2) && IsRoot(t, root) && hi <= NVPN
    requires Unmapped(t, t1, root, 0, hi, Free) && Freed(t1, t2, Node(root, 2, 0))
    requires forall v: nat :: hi <= v < NVPN ==> !Translate(t.pages, root, v).v
    ensures Returned(t, t2, root)
  {
    var n := Node(root, 2, 0);
    forall r: nat ensures IsRoot(t2, r) <==> IsRoot(t, r) && r != root { assert NodeFreed(t1, t2, n, Node(r, 2, 0)); }
    forall r: nat, v: nat | IsRoot(t, r) && r != root && v < NVPN ensures Agree(t, t2, r, v) {
      assert Agree(t, t1, r, v);
      FreedRootTranslate(t1, t2, root, r, v);
    }
    forall p | 0 <= p < |t.role| ensures PageReturned(t, t2, root, p) {
      assert LetGo(t, t1, root, 0, hi, Free, p) && PageFreed(t1, t2, n, p) && PageOk(t, p);
      DataMapped(t, root, hi, p);
    }
  }

  lemma DataMapped(t: Tree, root: nat, hi: nat, p: nat)
    requires TreeOk(t) && IsRoot(t, root) && p < |t.role|
    requires forall v: nat :: hi <= v < NVPN ==> !Translate(t.pages, root, v).v
    ensures t.role[p].Data? && t.role[p].root == root ==> t.role[p].vpn < hi
  {
    assert PageOk(t, p);
    if t.role[p].Data? && t.role[p].root == root { TranslateIs(t, root, t.role[p].vpn); }
  }

  /** Frees an address space that maps exactly its first sz bytes' pages: every user page and every page-table page. */
  method Uvmfree(m: Memory, root: nat, sz: nat)
    requires m.Valid() && IsRoot(m.T(), root) && sz <= MAXVPN * PGSIZE
    requires forall v: nat {:trigger m.Mappable(root, v, true)} :: v < PagesUp(sz) ==> m.Mappable(root, v, true)
    requires forall v: nat :: PagesUp(sz) <= v < NVPN ==> !Translate(m.pages, root, v).v
    modifies m
    ensures m.Valid() && Returned(old(m.T()), m.T(), root)
  {
    ghost var t := m.T();
    ghost var n := Node(root, 2, 0);
    UnmappedNone(t, root);
    if sz > 0 { m.Uvmunmap(root, 0, PagesUp(sz), true); }
    ghost var t1 := m.T();
    ReadyToFree(t, t1, root, PagesUp(sz));
    assert NodeOk(t1, n);
    Freewalk(m, root, n);
    FreedRootOk(t1, m.T(), root);
    FirstAfter(m, t1, m.T(), n);
    ReturnedOf(t, t1, m.T(), root, PagesUp(sz));
  }

  lemma UnmappedNone(t: Tree, root: nat)
    requires |t.pages| == |t.role|
    ensures Unmapped(t, t, root, 0, 0, Free)
  {
  }

  lemma ReadyToFree(t: Tree, t1: Tree, root: nat, hi: nat)
    requires TreeOk(t) && TreeOk(t1) && IsRoot(t, root) && hi <= NVPN && Unmapped(t, t1, root, 0, hi, Free)
    requires forall v: nat :: hi <= v < NVPN ==> !Translate(t.pages, root, v).v
    ensures NoLeaves(t1, Node(root, 2, 0))
    ensures forall p :: 0 <= p < |t1.role| ==> !(t1.role[p].Data? && t1.role[p].root == root)
  {
    forall v: nat | v < NVPN ensures !Translate(t1.pages, root, v).v {
      if v < hi { assert GoneAt(t1, root, v); } else { assert Agree(t, t1, root, v); }
    }
    forall c | c in t1.dir && c.level == 0 && Below(c, Node(root, 2, 0))
      ensures Empty(t1, c) { AllInvalid(t1, root, c); }
    forall p | 0 <= p < |t1.role| ensures !(t1.role[p].Data? && t1.role[p].root == root) { DataMapped(t1, root, 0, p); }
  }
}
