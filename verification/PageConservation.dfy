/** No page is lost or handed out twice: the free list and the address spaces share out one pool of pages. */
module PageConservation {
  import opened PageTable
  import opened VirtualMemory
  import opened UserMemory
  import opened FreeTables

  /** The pages that are free or belong to some address space. */
  ghost function Pool(role: seq<Role>): set<nat> {
    set p: nat | p < |role| && (role[p] == Free || role[p].Table? || role[p].Data?)
  }

  ghost function OwnedPages(role: seq<Role>): set<nat> {
    set p: nat | p < |role| && (role[p].Table? || role[p].Data?)
  }

  lemma {:induction false} ListSize(s: seq<nat>, ps: set<nat>)
    requires (forall i, j :: 0 <= i < j < |s| ==> s[i] != s[j]) && (forall p: nat :: p in ps <==> p in s)
    ensures |ps| == |s|
  {
    if s != [] {
      var r := s[1..];
      assert s == [s[0]] + r;
      ListSize(r, ps - {s[0]});
    }
  }

  /** The length of the free list plus the number of pages address spaces own is the size of the pool. */
  lemma PoolCount(freelist: seq<nat>, role: seq<Role>)
    requires FreeOk(freelist, role)
    ensures |Pool(role)| == |freelist| + |OwnedPages(role)|
  {
    var free := set p: nat | p < |role| && role[p] == Free;
    forall p: nat ensures p in free <==> p in freelist { }
    ListSize(freelist, free);
    assert Pool(role) == free + OwnedPages(role) && free !! OwnedPages(role);
  }

  /** Growing (uvmalloc, uvmcopy, walk), shrinking (uvmdealloc, uvmunmap with free) and freeing (uvmfree) an address
      space keep the pool, hence the count. */
  lemma Conserved(t: Tree, t': Tree, root: nat, lo: nat, hi: nat, freelist: seq<nat>, freelist': seq<nat>)
    requires FreeOk(freelist, t.role) && FreeOk(freelist', t'.role)
    requires Grown(t, t', root, lo, hi) || Unmapped(t, t', root, lo, hi, Free) || Returned(t, t', root)
    ensures Pool(t'.role) == Pool(t.role)
    ensures |freelist'| + |OwnedPages(t'.role)| == |freelist| + |OwnedPages(t.role)|
  {
    forall p: nat | p < |t.role| ensures p in Pool(t'.role) <==> p in Pool(t.role) {
      if Grown(t, t', root, lo, hi) {
        assert RoleStep(t, t', root, lo, hi, p);
      } else if Unmapped(t, t', root, lo, hi, Free) {
        assert LetGo(t, t', root, lo, hi, Free, p);
      } else {
        assert PageReturned(t, t', root, p);
      }
    }
    assert Pool(t'.role) == Pool(t.role);
    PoolCount(freelist, t.role);
    PoolCount(freelist', t'.role);
  }
}
