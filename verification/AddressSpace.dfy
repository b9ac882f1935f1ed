/** An address space as a finite map from virtual pages to entries: what the operations of kernel/vm.c do to it. */
module AddressSpace {
  import opened PageTable
  import opened VirtualMemory
  import opened UserMemory
  import C = UserCopy

  /** The pages that are mapped, and their leaf entries. */
  ghost function Space(t: Tree, root: nat): map<nat, Pte> {
    map v: nat | v < NVPN && Translate(t.pages, root, v).v :: Translate(t.pages, root, v)
  }

  predicate Within(lo: nat, v: nat, hi: nat) { lo <= v < hi }

  ghost function Range(lo: nat, hi: nat): set<nat> {
    set v: nat | v < hi && Within(lo, v, hi)
  }

  /** Consecutive pages to consecutive physical pages. */
  ghost function Run(lo: nat, hi: nat, perm: Pte, ppn: nat): map<nat, Pte> {
    map v: nat | v < hi && Within(lo, v, hi) :: Entry(perm, ppn + (v - lo))
  }

  lemma SameAt(t: Tree, t': Tree, root: nat, lo: nat, hi: nat, r: nat, v: nat)
    requires SameBut(t, t', root, lo, hi) && IsRoot(t, r) && v < NVPN && !In(r, v, root, lo, hi)
    ensures Translate(t'.pages, r, v) == Translate(t.pages, r, v)
  {
    assert Agree(t, t', r, v);
  }

  /** Other address spaces, and an empty range, stay. */
  lemma SameSpace(t: Tree, t': Tree, root: nat, lo: nat, hi: nat, r: nat)
    requires SameBut(t, t', root, lo, hi) && IsRoot(t, r) && (r != root || hi <= lo)
    ensures Space(t', r) == Space(t, r)
  {
    forall v: nat | v < NVPN
      ensures Translate(t'.pages, r, v) == Translate(t.pages, r, v) { SameAt(t, t', root, lo, hi, r, v); }
  }

  lemma SpaceAt(t: Tree, root: nat, v: nat)
    ensures v in Space(t, root) <==> v < NVPN && Translate(t.pages, root, v).v
    ensures v in Space(t, root) ==> Space(t, root)[v] == Translate(t.pages, root, v)
  {
  }

  lemma RunAt(lo: nat, hi: nat, perm: Pte, ppn: nat, v: nat)
    ensures v in Run(lo, hi, perm, ppn) <==> Within(lo, v, hi)
    ensures Within(lo, v, hi) ==> Run(lo, hi, perm, ppn)[v] == Entry(perm, ppn + (v - lo))
  {
  }

  lemma PlusAt(m: map<nat, Pte>, run: map<nat, Pte>, m': map<nat, Pte>, v: nat)
    requires v in run ==> v in m' && m'[v] == run[v]
    requires v !in run ==> (v in m' <==> v in m) && (v in m ==> m'[v] == m[v])
    ensures (v in m' <==> v in m + run) && (v in m' ==> m'[v] == (m + run)[v])
  {
  }

  lemma PointPlus(t: Tree, t': Tree, root: nat, lo: nat, hi: nat, perm: Pte, ppn: nat, v: nat,
                  m: map<nat, Pte>, run: map<nat, Pte>, m': map<nat, Pte>)
    requires hi <= NVPN && m == Space(t, root) && run == Run(lo, hi, perm, ppn) && m' == Space(t', root)
    requires Within(lo, v, hi) ==> Translate(t'.pages, root, v) == Entry(perm, ppn + (v - lo))
    requires v < NVPN && !Within(lo, v, hi) ==> Translate(t'.pages, root, v) == Translate(t.pages, root, v)
    ensures Point(m + run, m', v)
  {
    SpaceAt(t, root, v);
    SpaceAt(t', root, v);
    RunAt(lo, hi, perm, ppn, v);
    PlusAt(m, run, m', v);
  }

  /** Two maps agree on v. */
  ghost predicate Point(m: map<nat, Pte>, m': map<nat, Pte>, v: nat) {
    (v in m' <==> v in m) && (v in m' ==> m'[v] == m[v])
  }

  lemma Points(m: map<nat, Pte>, m': map<nat, Pte>)
    requires forall v: nat {:trigger Point(m, m', v)} :: Point(m, m', v)
    ensures m' == m
  {
    forall v: nat ensures v in m' <==> v in m { assert Point(m, m', v); }
    forall v: nat | v in m ensures m'[v] == m[v] { assert Point(m, m', v); }
  }

  lemma MappedSpaceAt(t: Tree, t': Tree, root: nat, lo: nat, k: nat, perm: Pte, ppn: nat, own: bool, v: nat)
    requires Mapped(t, t', root, lo, k, perm, ppn, own) && IsRoot(t, root) && lo + k <= NVPN
    ensures Within(lo, v, lo + k) ==> Translate(t'.pages, root, v) == Entry(perm, ppn + (v - lo))
    ensures v < NVPN && !Within(lo, v, lo + k) ==> Translate(t'.pages, root, v) == Translate(t.pages, root, v)
  {
    if Within(lo, v, lo + k) {
      assert MappedAt(t', root, lo, perm, ppn, v);
    } else if v < NVPN {
      SameAt(t, t', root, lo, lo + k, root, v);
    }
  }

  /** mappages adds its pages to the map of its own address space, and changes no other. */
  lemma MappedSpace(t: Tree, t': Tree, root: nat, lo: nat, k: nat, perm: Pte, ppn: nat, own: bool, r: nat)
    requires Mapped(t, t', root, lo, k, perm, ppn, own) && IsRoot(t, r) && lo + k <= NVPN
    ensures Space(t', r) == if r == root then Space(t, r) + Run(lo, lo + k, perm, ppn) else Space(t, r)
  {
    if r != root {
      SameSpace(t, t', root, lo, lo + k, r);
    } else {
      var m, run, m' := Space(t, root), Run(lo, lo + k, perm, ppn), Space(t', root);
      forall v: nat ensures Point(m + run, m', v) {
        MappedSpaceAt(t, t', root, lo, k, perm, ppn, own, v);
        PointPlus(t, t', root, lo, lo + k, perm, ppn, v, m, run, m');
      }
      Points(m + run, m');
    }
  }

  lemma UnmappedSpaceAt(t: Tree, t': Tree, root: nat, lo: nat, hi: nat, role: Role, v: nat)
    requires Unmapped(t, t', root, lo, hi, role) && IsRoot(t, root) && hi <= NVPN
    ensures Point(Space(t, root) - Range(lo, hi), Space(t', root), v)
  {
    if Within(lo, v, hi) {
      assert GoneAt(t', root, v);
    } else if v < NVPN {
      SameAt(t, t', root, lo, hi, root, v);
    }
  }

  /** uvmunmap removes its pages from the map, and changes no other. */
  lemma UnmappedSpace(t: Tree, t': Tree, root: nat, lo: nat, hi: nat, role: Role, r: nat)
    requires Unmapped(t, t', root, lo, hi, role) && IsRoot(t, r) && hi <= NVPN
    ensures Space(t', r) == if r == root then Space(t, r) - Range(lo, hi) else Space(t, r)
  {
    if r != root {
      SameSpace(t, t', root, lo, hi, r);
    } else {
      var m, m' := Space(t, root) - Range(lo, hi), Space(t', root);
      forall v: nat ensures Point(m, m', v) { UnmappedSpaceAt(t, t', root, lo, hi, role, v); }
      Points(m, m');
    }
  }

  /** walk, and an operation that failed and rolled back, leave every map as it was. */
  lemma GrownNothing(t: Tree, t': Tree, root: nat, lo: nat, r: nat)
    requires Grown(t, t', root, lo, lo) && IsRoot(t, r)
    ensures IsRoot(t', r) && Space(t', r) == Space(t, r)
  {
    SameSpace(t, t', root, lo, lo, r);
  }

  /** uvmcopy that succeeds makes the child's map equal to the parent's on the copied pages, but for the physical pages,
      which hold the same bytes and are not the parent's. */
  lemma CopiedSpace(t: Tree, t': Tree, src: nat, dst: nat, hi: nat, v: nat)
    requires Copied(t, t', src, dst, hi) && IsRoot(t, src) && IsRoot(t, dst) && src != dst && v < hi <= NVPN
    requires v in Space(t, src) && Owned(t.role, Space(t, src)[v], src, v)
    ensures v in Space(t', dst) && v in Space(t', src) && Space(t', src)[v] == Space(t, src)[v]
    ensures var p, q := Space(t', dst)[v].ppn, Space(t', src)[v].ppn;
            && Space(t', dst)[v] == Space(t', src)[v].(ppn := p)
            && p < |t'.pages| && q < |t'.pages| && t'.pages[p] == t'.pages[q] && p != q
  {
    assert CopyAt(t, t', src, dst, v);
    SameAt(t, t', dst, 0, hi, src, v);
    assert Kept(t, t', Space(t, src)[v].ppn);
  }

  /** After uvmalloc the user may access every new byte, and reads 0. */
  lemma NewMemory(t: Tree, t': Tree, root: nat, oldsz: nat, newsz: nat, va: nat)
    requires Alloced(t, t', root, PagesUp(oldsz), PagesUp(newsz)) && newsz <= MAXVPN * PGSIZE
    requires PagesUp(oldsz) * PGSIZE <= va < PagesUp(newsz) * PGSIZE
    ensures C.User(t', root, va) && C.At(t', root, va) == 0
  {
    assert FreshAt(t, t', root, va / PGSIZE);
  }

  /** What an address space had before, and all others have, they still have. */
  lemma OldMemory(t: Tree, t': Tree, root: nat, lo: nat, hi: nat, r: nat, va: nat)
    requires TreeOk(t) && Grown(t, t', root, lo, hi) && IsRoot(t, r) && C.User(t, r, va)
    requires r == root ==> !(lo <= va / PGSIZE < hi)
    ensures C.User(t', r, va) && C.At(t', r, va) == C.At(t, r, va)
  {
    C.UserPage(t, r, va);
    SameAt(t, t', root, lo, hi, r, va / PGSIZE);
    assert Kept(t, t', Translate(t.pages, r, va / PGSIZE).ppn);
  }
}
