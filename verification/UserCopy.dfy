/** walkaddr, uvmclear, copyin, copyout and copyinstr of kernel/vm.c, against a flat view of user memory. */
module UserCopy {
  import opened Params
  import opened PageTable
  import opened VirtualMemory

  /** The address is in a page the user may access. */
  ghost predicate User(t: Tree, root: nat, va: nat) {
    var e := Translate(t.pages, root, va / PGSIZE);
    va / PGSIZE < MAXVPN && e.v && e.u
  }

  /** The byte at a user address. */
  ghost function At(t: Tree, root: nat, va: nat): Byte {
    var e := Translate(t.pages, root, va / PGSIZE);
    if e.ppn < |t.pages| && t.pages[e.ppn].Bytes?
        && va % PGSIZE < |t.pages[e.ppn].b| then t.pages[e.ppn].b[va % PGSIZE] else 0
  }

  lemma UserPage(t: Tree, root: nat, va: nat)
    requires TreeOk(t) && IsRoot(t, root) && User(t, root, va)
    ensures Owned(t.role, Translate(t.pages, root, va / PGSIZE), root, va / PGSIZE)
    ensures var p := Translate(t.pages, root, va / PGSIZE).ppn;
            p < |t.pages| && t.pages[p].Bytes? && |t.pages[p].b| == PGSIZE
                && At(t, root, va) == t.pages[p].b[va % PGSIZE]
  {
    UserOwned(t, root, va / PGSIZE);
    assert PageOk(t, Translate(t.pages, root, va / PGSIZE).ppn);
  }

  /** The physical address of the page, or 0 when the user may not access it. */
  method Walkaddr(m: Memory, root: nat, va: nat) returns (pa: nat)
    requires m.Valid() && IsRoot(m.T(), root)
    modifies m
    ensures m.Valid() && m.T() == old(m.T()) && m.freelist == old(m.freelist)
    ensures pa != 0 <==> User(m.T(), root, va)
    ensures pa != 0 ==> pa == Translate(m.pages, root, va / PGSIZE).ppn * PGSIZE
  {
    if va >= MAXVPN * PGSIZE { return 0; }
    var e := m.Lookup(root, va);
    if !e.v { return 0; }
    if !e.u { return 0; }
    UserPage(m.T(), root, va);
    pa := e.ppn * PGSIZE;
  }

  /** Takes the user's access to a page away; nothing else changes. */
  method Uvmclear(m: Memory, root: nat, va: nat)
    requires m.Valid() && IsRoot(m.T(), root) && va / PGSIZE < MAXVPN && Translate(m.pages, root, va / PGSIZE).v
    modifies m
    ensures m.Valid() && m.role == old(m.role) && m.dir == old(m.dir)
    ensures forall r: nat, v: nat {:trigger Translate(m.pages, r, v)} :: IsRoot(m.T(), r) && v < NVPN ==>
              Translate(m.pages, r, v) ==
                  (if r == root && v == va / PGSIZE then old(Translate(m.pages, root, va / PGSIZE)).(u := false)
                                          else old(Translate(m.pages, r, v)))
  {
    ghost var t := m.T();
    var s := m.Walk(root, va, false);
    TranslateIs(t, root, va / PGSIZE);
    var (p, i) := s.value;
    ClearLeaf(t, root, va / PGSIZE, p, i);
    m.pages := m.pages[p := Ptes(m.pages[p].e[i := m.pages[p].e[i].(u := false)])];
  }

  lemma ClearLeaf(t: Tree, root: nat, v0: nat, p: nat, i: nat)
    requires TreeOk(t) && IsRoot(t, root) && v0 < NVPN && Node(root, 0, v0 / 512) in t.dir
    requires p == t.dir[Node(root, 0, v0 / 512)] && i == v0 % 512 && Slot(t.pages, p, i).v
    ensures p < |t.pages| && t.pages[p].Ptes? && i < |t.pages[p].e|
    ensures var t' := t.(pages := SetPte(t.pages, p, i, t.pages[p].e[i].(u := false)));
            && TreeOk(t')
            && forall r: nat, v: nat {:trigger Translate(t'.pages, r, v)} :: IsRoot(t, r) && v < NVPN ==>
                 Translate(t'.pages, r, v) ==
                     (if r == root && v == v0 then t.pages[p].e[i].(u := false) else Translate(t.pages, r, v))
  {
    var n := Node(root, 0, v0 / 512);
    assert NodeOk(t, n) && EntryOk(t, n, i);
    var e := t.pages[p].e[i].(u := false);
    var own := Owned(t.role, e, root, v0);
    if own { assert PageOk(t, e.ppn); }
    WithLeafOk(t, n, i, e, own);
    SameRole(t, root, v0, p, i, e, own);
    forall r: nat, v: nat | IsRoot(t, r) && v < NVPN
      ensures Translate(WithLeaf(t, n, i, e, own).pages, r, v) == if r == root
              && v == v0 then e else Translate(t.pages, r, v)
    {
      WithLeafTranslate(t, n, i, e, own, r, v);
    }
  }

  lemma SameRole(t: Tree, root: nat, v0: nat, p: nat, i: nat, e: Pte, own: bool)
    requires TreeOk(t) && Node(root, 0, v0 / 512) in t.dir && p == t.dir[Node(root, 0, v0 / 512)] && i == v0 % 512
    requires Slot(t.pages, p, i).v && e.ppn == Slot(t.pages, p, i).ppn && e.v && (own <==> Owned(t.role, e, root, v0))
    ensures LeafRole(t.role, root, v0, e.ppn, own) == t.role
  {
    forall q | 0 <= q < |t.role| ensures LeafRole(t.role, root, v0, e.ppn, own)[q] == t.role[q] { assert PageOk(t, q); }
  }

  // ---- copyin

  ghost predicate Reads(t: Tree, root: nat, va: nat, s: seq<Byte>, i: nat)
    requires i < |s|
  {
    User(t, root, va + i) && s[i] == At(t, root, va + i)
  }

  /** s is what the user sees from va on. */
  ghost predicate Holds(t: Tree, root: nat, va: nat, s: seq<Byte>) {
    forall i {:trigger Reads(t, root, va, s, i)} :: 0 <= i < |s| ==> Reads(t, root, va, s, i)
  }

  /** What one page contributes. */
  lemma HoldsMore(t: Tree, root: nat, va: nat, s: seq<Byte>, a: nat, c: seq<Byte>)
    requires TreeOk(t) && IsRoot(t, root) && Holds(t, root, va, s) && a == va + |s| && User(t, root, a)
    requires a % PGSIZE + |c| <= PGSIZE
    requires forall i {:trigger InPage(t, root, a, c, i)} :: 0 <= i < |c| ==> InPage(t, root, a, c, i)
    ensures Holds(t, root, va, s + c)
  {
    forall i | 0 <= i < |s + c| ensures Reads(t, root, va, s + c, i) {
      if i < |s| {
        assert Reads(t, root, va, s, i);
      } else {
        assert InPage(t, root, a, c, i - |s|);
        assert (va + i) / PGSIZE == a / PGSIZE;
      }
    }
  }

  ghost predicate InPage(t: Tree, root: nat, a: nat, c: seq<Byte>, i: nat)
    requires i < |c|
  {
    && var p := Translate(t.pages, root, a / PGSIZE).ppn;
    && p < |t.pages| && t.pages[p].Bytes? && a % PGSIZE + i < |t.pages[p].b| && c[i] == t.pages[p].b[a % PGSIZE + i]
  }

  /** The round copyin and copyinstr share: up to `left` bytes from va to the end of its page, which ends at `next`. */
  method PagePart(m: Memory, root: nat, va: nat, left: nat) returns (ok: bool, c: seq<Byte>, next: nat)
    requires m.Valid() && IsRoot(m.T(), root) && left > 0
    modifies m
    ensures m.Valid() && m.T() == old(m.T()) && m.freelist == old(m.freelist)
    ensures ok <==> User(m.T(), root, va)
    ensures ok ==> 0 < |c| <= left && va % PGSIZE + |c| <= PGSIZE && (|c| < left ==> next == va + |c|)
    ensures ok ==> forall i {:trigger InPage(m.T(), root, va, c, i)} :: 0 <= i < |c| ==> InPage(m.T(), root, va, c, i)
  {
    var va0 := va / PGSIZE * PGSIZE;
    var pa0 := Walkaddr(m, root, va0);
    assert va0 / PGSIZE == va / PGSIZE;
    next := va0 + PGSIZE;
    if pa0 == 0 { return false, [], next; }
    var n := PGSIZE - (va - va0);
    if n > left { n := left; }
    UserPage(m.T(), root, va);
    var off := va - va0;
    c := m.pages[pa0 / PGSIZE].b[off..off + n];
    ok := true;
  }

  /** Copies len bytes from user memory, page by page; stops before the first page the user may not access. */
  method Copyin(m: Memory, root: nat, srcva: nat, len: nat) returns (ok: bool, dst: seq<Byte>)
    requires m.Valid() && IsRoot(m.T(), root)
    modifies m
    ensures m.Valid() && m.T() == old(m.T()) && m.freelist == old(m.freelist)
    ensures |dst| <= len && Holds(m.T(), root, srcva, dst)
    ensures ok <==> |dst| == len
    ensures !ok ==> !User(m.T(), root, srcva + |dst|)
  {
    ghost var t := m.T();
    dst := [];
    var va, left := srcva, len;
    while left > 0
      invariant m.Valid() && m.T() == t && m.freelist == old(m.freelist)
      invariant 0 <= left && |dst| + left == len && (left > 0 ==> va == srcva + |dst|) && Holds(t, root, srcva, dst)
    {
      var found, c, next := PagePart(m, root, va, left);
      if !found { return false, dst; }
      HoldsMore(t, root, srcva, dst, va, c);
      dst := dst + c;
      left := left - |c|;
      va := next;
    }
    ok := true;
  }

  // ---- copyout

  function Patch(b: seq<Byte>, off: nat, c: seq<Byte>): seq<Byte>
    requires off + |c| <= |b|
  {
    b[..off] + c + b[off + |c|..]
  }

  /** The byte the user sees at a: from src if it was copied there, else the one before. */
  ghost predicate ByteAfter(t: Tree, t': Tree, root: nat, va: nat, src: seq<Byte>, n: nat, r: nat, a: nat)
    requires n <= |src|
  {
    At(t', r, a) == if r == root && va <= a < va + n then src[a - va] else At(t, r, a)
  }

  ghost predicate PageAfter(t: Tree, t': Tree, root: nat, p: nat)
    requires Sized(t, t') && p < |t.role|
  {
    t'.pages[p] == t.pages[p]
        || (t.role[p].Data? && t.role[p].root == root && Translate(t.pages, root, t.role[p].vpn).u)
  }

  /** The first n bytes of src are at va in user memory; no other user byte, no mapping and no other page has
      changed. */
  ghost predicate Stored(t: Tree, t': Tree, root: nat, va: nat, src: seq<Byte>, n: nat)
    requires n <= |src|
  {
    && Sized(t, t') && t'.role == t.role && t'.dir == t.dir
    && (forall r: nat, v: nat {:trigger Agree(t, t', r, v)} :: IsRoot(t, r) && v < NVPN ==> Agree(t, t', r, v))
    && (forall r: nat, a: nat {:trigger ByteAfter(t, t', root, va, src, n, r, a)} ::
          IsRoot(t, r) && User(t, r, a) ==> ByteAfter(t, t', root, va, src, n, r, a))
    && (forall p {:trigger PageAfter(t, t', root, p)} :: 0 <= p < |t.role| ==> PageAfter(t, t', root, p))
  }

  lemma StoredNone(t: Tree, root: nat, va: nat, src: seq<Byte>)
    requires |t.pages| == |t.role|
    ensures Stored(t, t, root, va, src, 0)
  {
  }

  lemma BytesTranslate(t: Tree, p: nat, b: seq<Byte>, r: nat, v: nat)
    requires TreeOk(t) && p < |t.pages| && t.role[p].Data? && |b| == PGSIZE && IsRoot(t, r) && v < NVPN
    ensures Translate(WithBytes(t, p, b).pages, r, v) == Translate(t.pages, r, v)
  {
    WithBytesOk(t, p, b);
    forall n | n in t.dir && n.root == r
      ensures t.dir[n] < |t.pages| && WithBytes(t, p, b).pages[t.dir[n]] == t.pages[t.dir[n]] {
      assert NodeOk(t, n);
    }
    SameTables(t, WithBytes(t, p, b), r, v);
  }

  /** One memmove into the page that holds address va + n. */
  ghost predicate CanStore(t: Tree, root: nat, a: nat, p: nat, c: seq<Byte>) {
    && TreeOk(t) && IsRoot(t, root) && User(t, root, a) && p == Translate(t.pages, root, a / PGSIZE).ppn
    && p < |t.pages| && t.role[p] == Data(root, a / PGSIZE) && t.pages[p].Bytes? && |t.pages[p].b| == PGSIZE
    && a % PGSIZE + |c| <= PGSIZE
  }

  lemma StoreByte(t: Tree, root: nat, a: nat, p: nat, c: seq<Byte>, r: nat, x: nat)
    requires CanStore(t, root, a, p, c) && IsRoot(t, r) && User(t, r, x)
    ensures At(WithBytes(t, p, Patch(t.pages[p].b, a % PGSIZE, c)), r, x) ==
            if r == root && a <= x < a + |c| then c[x - a] else At(t, r, x)
  {
    var b' := Patch(t.pages[p].b, a % PGSIZE, c);
    BytesTranslate(t, p, b', r, x / PGSIZE);
    UserPage(t, r, x);
    if r == root && x / PGSIZE == a / PGSIZE {
      assert x - a == x % PGSIZE - a % PGSIZE;
    }
  }

  lemma StoredMore(t0: Tree, t: Tree, root: nat, va: nat, src: seq<Byte>, n: nat, p: nat, k: nat, b': seq<Byte>)
    requires TreeOk(t0) && IsRoot(t0, root) && n + k <= |src| && Stored(t0, t, root, va, src, n)
    requires CanStore(t, root, va + n, p, src[n..n + k]) && b' == Patch(t.pages[p].b, (va + n) % PGSIZE, src[n..n + k])
    ensures TreeOk(WithBytes(t, p, b')) && Stored(t0, WithBytes(t, p, b'), root, va, src, n + k)
  {
    var n' := n + k;
    var t' := WithBytes(t, p, b');
    WithBytesOk(t, p, b');
    forall r: nat, v: nat | IsRoot(t0, r) && v < NVPN ensures Agree(t0, t', r, v) {
      assert Agree(t0, t, r, v);
      BytesTranslate(t, p, b', r, v);
    }
    forall r: nat, a: nat | IsRoot(t0, r) && User(t0, r, a) ensures ByteAfter(t0, t', root, va, src, n', r, a) {
      assert ByteAfter(t0, t, root, va, src, n, r, a) && Agree(t0, t, r, a / PGSIZE);
      StoreByte(t, root, va + n, p, src[n..n + k], r, a);
    }
    forall q | 0 <= q < |t0.role| ensures PageAfter(t0, t', root, q) {
      assert PageAfter(t0, t, root, q) && Agree(t0, t, root, (va + n) / PGSIZE);
    }
  }

  /** One round of copyout: the bytes of src from `done` on, up to the end of va's page, which ends at `next`. */
  method StoreRound(m: Memory, root: nat, ghost t: Tree, ghost dstva: nat, va: nat, src: seq<Byte>, done: nat)
    returns (ok: bool, k: nat, next: nat)
    requires m.Valid() && TreeOk(t) && IsRoot(t, root) && done < |src| && va == dstva + done
    requires Stored(t, m.T(), root, dstva, src, done)
    modifies m
    ensures m.Valid() && m.freelist == old(m.freelist)
    ensures !ok ==> m.T() == old(m.T()) && !User(m.T(), root, va)
    ensures ok ==> 0 < k <= |src| - done && Stored(t, m.T(), root, dstva, src, done + k)
    ensures ok && done + k < |src| ==> next == va + k
  {
    var va0 := va / PGSIZE * PGSIZE;
    var pa0 := Walkaddr(m, root, va0);
    assert va0 / PGSIZE == va / PGSIZE;
    next := va0 + PGSIZE;
    k := PGSIZE - (va - va0);
    if pa0 == 0 { return false, k, next; }
    if k > |src| - done { k := |src| - done; }
    ghost var t1 := m.T();
    UserPage(t1, root, va);
    var p := pa0 / PGSIZE;
    var b := Patch(m.pages[p].b, va - va0, src[done..done + k]);
    StoredMore(t, t1, root, dstva, src, done, p, k, b);
    m.pages := m.pages[p := Bytes(b)];
    assert m.T() == WithBytes(t1, p, b);
    ok := true;
  }

  /** Copies src into user memory, page by page; stops before the first page the user may not access. */
  method Copyout(m: Memory, root: nat, dstva: nat, src: seq<Byte>) returns (ok: bool, ghost n: nat)
    requires m.Valid() && IsRoot(m.T(), root)
    modifies m
    ensures m.Valid() && n <= |src| && Stored(old(m.T()), m.T(), root, dstva, src, n) && m.freelist == old(m.freelist)
    ensures ok <==> n == |src|
    ensures !ok ==> !User(m.T(), root, dstva + n)
  {
    ghost var t := m.T();
    StoredNone(t, root, dstva, src);
    var va, done := dstva, 0;
    while done < |src|
      invariant 0 <= done <= |src| && m.Valid() && Stored(t, m.T(), root, dstva, src, done)
                && m.freelist == old(m.freelist)
      invariant done < |src| ==> va == dstva + done
    {
      var found, k, next := StoreRound(m, root, t, dstva, va, src, done);
      if !found { return false, done; }
      done := done + k;
      va := next;
    }
    return true, done;
  }

  /** What copyout stored is what copyin reads back. */
  lemma StoredReads(t: Tree, t': Tree, root: nat, va: nat, src: seq<Byte>)
    requires IsRoot(t, root) && Stored(t, t', root, va, src, |src|)
    requires forall a: nat {:trigger User(t, root, a)} :: va <= a < va + |src| ==> User(t, root, a)
    ensures Holds(t', root, va, src)
  {
    forall i | 0 <= i < |src| ensures Reads(t', root, va, src, i) {
      assert User(t, root, va + i) && ByteAfter(t, t', root, va, src, |src|, root, va + i);
      assert Agree(t, t', root, (va + i) / PGSIZE);
    }
  }

  lemma HoldsOnce(t: Tree, root: nat, va: nat, s: seq<Byte>, s': seq<Byte>)
    requires Holds(t, root, va, s) && Holds(t, root, va, s') && |s| == |s'|
    ensures s == s'
  {
    forall i | 0 <= i < |s| ensures s[i] == s'[i] { assert Reads(t, root, va, s, i) && Reads(t, root, va, s', i); }
  }

  // ---- copyinstr

  predicate NoNul(s: seq<Byte>) {
    forall i :: 0 <= i < |s| ==> s[i] != 0
  }

  /** The inner loop: the bytes before the first NUL, and whether there is one. */
  method Scan(b: seq<Byte>) returns (got: bool, c: seq<Byte>)
    ensures c <= b && NoNul(c)
    ensures got <==> |c| < |b|
    ensures got ==> b[|c|] == 0
  {
    c := [];
    var i := 0;
    while i < |b|
      invariant 0 <= i <= |b| && c == b[..i] && NoNul(c)
    {
      if b[i] == 0 { return true, c; }
      c := c + [b[i]];
      i := i + 1;
    }
    got := false;
  }

  /** Copies a NUL-terminated string of at most max bytes, the NUL counted. On failure there is no NUL among the bytes
      copied, and either max bytes were copied or the next is in a page the user may not access. */
  method Copyinstr(m: Memory, root: nat, srcva: nat, max: nat) returns (ok: bool, dst: seq<Byte>)
    requires m.Valid() && IsRoot(m.T(), root)
    modifies m
    ensures m.Valid() && m.T() == old(m.T()) && m.freelist == old(m.freelist)
    ensures |dst| <= max && Holds(m.T(), root, srcva, dst)
    ensures ok ==> |dst| > 0 && dst[|dst| - 1] == 0 && NoNul(dst[..|dst| - 1])
    ensures !ok ==> NoNul(dst) && (|dst| == max || !User(m.T(), root, srcva + |dst|))
  {
    ghost var t := m.T();
    dst := [];
    var va, left := srcva, max;
    while left > 0
      invariant m.Valid() && m.T() == t && m.freelist == old(m.freelist) && NoNul(dst)
      invariant 0 <= left && |dst| + left == max && (left > 0 ==> va == srcva + |dst|) && Holds(t, root, srcva, dst)
    {
      var found, b, next := PagePart(m, root, va, left);
      if !found { return false, dst; }
      var got, c := Scan(b);
      HoldsPart(t, root, srcva, dst, va, b, c);
      if got {
        HoldsPart(t, root, srcva, dst, va, b, c + [0]);
        assert dst + (c + [0]) == dst + c + [0];
        return true, dst + c + [0];
      }
      dst := dst + c;
      left := left - |c|;
      va := next;
    }
    ok := false;
  }

  lemma HoldsPart(t: Tree, root: nat, va: nat, s: seq<Byte>, a: nat, b: seq<Byte>, c: seq<Byte>)
    requires TreeOk(t) && IsRoot(t, root) && Holds(t, root, va, s) && a == va + |s| && User(t, root, a)
    requires a % PGSIZE + |b| <= PGSIZE && c <= b
    requires forall i {:trigger InPage(t, root, a, b, i)} :: 0 <= i < |b| ==> InPage(t, root, a, b, i)
    ensures Holds(t, root, va, s + c)
  {
    forall i | 0 <= i < |c| ensures InPage(t, root, a, c, i) { assert InPage(t, root, a, b, i); }
    HoldsMore(t, root, va, s, a, c);
  }
}
