/** Sv39 page tables as kernel/vm.c builds them: physical pages, the three-level walk, and what keeps the tree a
    tree. */
module PageTable {
  import opened Params

  const PGSIZE: nat := 4096
  const NPTE: nat := 512
  /** MAXVA / PGSIZE: one bit less than Sv39 allows. */
  const MAXVPN: nat := 0x4000000
  /** Virtual page numbers the three indices can express. */
  const NVPN: nat := 0x8000000

  /** A page-table entry: PTE_V, PTE_R, PTE_W, PTE_X, PTE_U, the five flag bits above them, and the page number. */
  datatype Pte = Pte(ppn: nat, v: bool, r: bool, w: bool, x: bool, u: bool, rest: nat)

  /** Physical memory is used as bytes or as a page table. */
  datatype Page = Bytes(b: seq<Byte>) | Ptes(e: seq<Pte>)

  /** A page-table page of the tree under `root`: level 2 is the root, `prefix` the indices above it. */
  datatype Node = Node(root: nat, level: nat, prefix: nat)

  /** Who has a physical page: the free list, whoever called kalloc, a page table, or the mapping of a user page. */
  datatype Role = Free | Held | Kernel | Table(node: Node) | Data(root: nat, vpn: nat)

  /** Physical memory, the role of each page, and where each page-table page is. */
  datatype Tree = Tree(pages: seq<Page>, role: seq<Role>, dir: map<Node, nat>)

  function NoPte(): Pte { Pte(0, false, false, false, false, false, 0) }

  function TablePte(p: nat): Pte { Pte(p, true, false, false, false, false, 0) }

  predicate IsLeaf(e: Pte) { e.v && (e.r || e.w || e.x) }

  function ZeroTable(): Page { Ptes(seq(NPTE, i => NoPte())) }

  function Filled(b: Byte): (p: Page)
    ensures p.Bytes? && |p.b| == PGSIZE && forall i :: 0 <= i < PGSIZE ==> p.b[i] == b
  {
    Bytes(seq(PGSIZE, i => b))
  }

  // ---- bit layout

  function Digit(b: bool): nat { if b then 1 else 0 }

  function Flags(e: Pte): nat {
    e.rest * 32 + Digit(e.u) * 16 + Digit(e.x) * 8 + Digit(e.w) * 4 + Digit(e.r) * 2 + Digit(e.v)
  }

  /** The 64-bit word, from the top: the page number, five bits, then U, X, W, R, V. */
  function Encode(e: Pte): nat {
    ((((((e.ppn * 32 + e.rest) * 2) + Digit(e.u)) * 2 + Digit(e.x)) * 2 + Digit(e.w)) * 2 + Digit(e.r)) * 2 + Digit(e.v)
  }

  function Decode(w: nat): Pte {
    var w1 := w / 2;
    var w2 := w1 / 2;
    var w3 := w2 / 2;
    var w4 := w3 / 2;
    var w5 := w4 / 2;
    Pte(w5 / 32, w % 2 == 1, w1 % 2 == 1, w2 % 2 == 1, w3 % 2 == 1, w4 % 2 == 1, w5 % 32)
  }

  lemma Low(w: nat, h: nat, b: bool)
    requires w == h * 2 + Digit(b)
    ensures w / 2 == h && (w % 2 == 1 <==> b)
  {
  }

  lemma High(h: nat, ppn: nat, rest: nat)
    requires h == ppn * 32 + rest && rest < 32
    ensures h / 32 == ppn && h % 32 == rest
  {
  }

  /** Every entry survives packing into a word. */
  lemma PteRoundTrip(e: Pte)
    requires e.rest < 32
    ensures Decode(Encode(e)) == e
  {
    var h4 := e.ppn * 32 + e.rest;
    var h3 := h4 * 2 + Digit(e.u);
    var h2 := h3 * 2 + Digit(e.x);
    var h1 := h2 * 2 + Digit(e.w);
    var h0 := h1 * 2 + Digit(e.r);
    Unpack(Encode(e), h0, h1, h2, h3, h4, e);
  }

  lemma Unpack(w: nat, h0: nat, h1: nat, h2: nat, h3: nat, h4: nat, e: Pte)
    requires w == h0 * 2 + Digit(e.v) && h0 == h1 * 2 + Digit(e.r) && h1 == h2 * 2 + Digit(e.w)
    requires h2 == h3 * 2 + Digit(e.x) && h3 == h4 * 2 + Digit(e.u) && h4 == e.ppn * 32 + e.rest && e.rest < 32
    ensures Decode(w) == e
  {
    Low(w, h0, e.v);
    Low(h0, h1, e.r);
    Low(h1, h2, e.w);
    Low(h2, h3, e.x);
    Low(h3, h4, e.u);
    High(h4, e.ppn, e.rest);
  }

  /** The packed word is PA2PTE(pa) | flags, which PTE2PA and PTE_FLAGS take apart again. */
  lemma PteWord(e: Pte)
    requires e.rest < 32
    ensures Encode(e) == e.ppn * PGSIZE / PGSIZE * 1024 + Flags(e)
    ensures Encode(e) / 1024 * PGSIZE == e.ppn * PGSIZE && Encode(e) % 1024 == Flags(e)
  {
    assert Encode(e) == e.ppn * 1024 + Flags(e);
    Apart(e.ppn, Flags(e));
  }

  /** Its low bits are PTE_V, PTE_R, PTE_W, PTE_X and PTE_U, in this order. */
  lemma PteBits(e: Pte)
    requires e.rest < 32
    ensures (Encode(e) % 2 == 1 <==> e.v) && (Encode(e) / 2 % 2 == 1 <==> e.r) && (Encode(e) / 4 % 2 == 1 <==> e.w)
    ensures (Encode(e) / 8 % 2 == 1 <==> e.x) && (Encode(e) / 16 % 2 == 1 <==> e.u) && Encode(e) / 1024 == e.ppn
  {
    PteWord(e);
    PteRoundTrip(e);
  }

  /** The word of a table is PA2PTE(pa) | PTE_V. */
  lemma TableWord(p: nat)
    ensures Encode(TablePte(p)) == p * 1024 + 1 && !IsLeaf(TablePte(p))
  {
    PteWord(TablePte(p));
  }

  lemma Apart(h: nat, f: nat)
    requires f < 1024
    ensures (h * 1024 + f) / 1024 == h && (h * 1024 + f) % 1024 == f && h * PGSIZE / PGSIZE == h
  {
  }

  /** The PX macro. */
  function Px(level: nat, va: nat): nat
    requires level <= 2
  {
    va / (if level == 0 then 4096 else if level == 1 then 2097152 else 1073741824) % NPTE
  }

  /** The three indices of an address are the base-512 digits of its page number. */
  lemma PxDigits(va: nat)
    requires va / PGSIZE < NVPN
    ensures Px(2, va) == va / PGSIZE / 512 / 512 && Px(1, va) == va / PGSIZE / 512 % 512
            && Px(0, va) == va / PGSIZE % 512
    ensures va / PGSIZE == (Px(2, va) * 512 + Px(1, va)) * 512 + Px(0, va)
  {
  }

  // ---- the walk the hardware does

  function Slot(pages: seq<Page>, p: nat, i: nat): Pte {
    if p < |pages| && pages[p].Ptes? && i < |pages[p].e| then pages[p].e[i] else NoPte()
  }

  /** The leaf entry for a page, or an invalid entry when a level is missing. */
  function Translate(pages: seq<Page>, root: nat, vpn: nat): Pte {
    var e2 := Slot(pages, root, vpn / 512 / 512);
    var e1 := Slot(pages, e2.ppn, vpn / 512 % 512);
    if e2.v && e1.v then Slot(pages, e1.ppn, vpn % 512) else NoPte()
  }

  // ---- the invariant

  function Child(n: Node, i: nat): Node
    requires n.level > 0
  {
    Node(n.root, n.level - 1, n.prefix * 512 + i)
  }

  function Parent(n: Node): Node {
    Node(n.root, n.level + 1, n.prefix / 512)
  }

  predicate NodeShape(n: Node) {
    || (n.level == 2 && n.prefix == 0)
    || (n.level == 1 && n.prefix < 512)
    || (n.level == 0 && n.prefix < 512 * 512)
  }

  /** The page is this mapping's own: given to it by mappages, freed when it goes. */
  predicate Owned(role: seq<Role>, e: Pte, root: nat, vpn: nat) {
    e.v && e.ppn < |role| && role[e.ppn] == Data(root, vpn)
  }

  ghost predicate EntryOk(t: Tree, n: Node, i: nat)
    requires n in t.dir
  {
    var e := Slot(t.pages, t.dir[n], i);
    if n.level > 0 then
      && (e.v <==> Child(n, i) in t.dir)
      && (e.v ==> e == TablePte(t.dir[Child(n, i)]))
    else
      && (e.v ==> IsLeaf(e) && (e.u ==> Owned(t.role, e, n.root, n.prefix * 512 + i)))
      && (!e.v ==> e == NoPte())
  }

  ghost predicate NodeOk(t: Tree, n: Node)
    requires n in t.dir
  {
    var p := t.dir[n];
    && NodeShape(n)
    && p < |t.pages| == |t.role| && t.role[p] == Table(n) && t.pages[p].Ptes? && |t.pages[p].e| == NPTE
    && (n.level == 2 ==> p == n.root)
    && (n.level < 2 ==> Parent(n) in t.dir)
    && (forall i {:trigger EntryOk(t, n, i)} :: 0 <= i < NPTE ==> EntryOk(t, n, i))
  }

  ghost predicate PageOk(t: Tree, p: nat)
    requires p < |t.pages| == |t.role|
  {
    match t.role[p]
    case Table(n) => n in t.dir && t.dir[n] == p
    case Data(root, vpn) =>
      && t.pages[p].Bytes? && |t.pages[p].b| == PGSIZE
      && vpn < NVPN && Node(root, 0, vpn / 512) in t.dir
      && var e := Slot(t.pages, t.dir[Node(root, 0, vpn / 512)], vpn % 512); e.v && e.ppn == p
    case _ => true
  }

  ghost predicate TreeOk(t: Tree) {
    && |t.pages| == |t.role|
    && (forall n {:trigger NodeOk(t, n)} :: n in t.dir ==> NodeOk(t, n))
    && (forall p {:trigger PageOk(t, p)} :: 0 <= p < |t.pages| ==> PageOk(t, p))
  }

  ghost predicate IsRoot(t: Tree, root: nat) {
    Node(root, 2, 0) in t.dir
  }

  // ---- what the invariant gives

  /** The three-level walk through memory finds exactly the leaf table the directory records. */
  lemma TranslateIs(t: Tree, root: nat, vpn: nat)
    requires TreeOk(t) && IsRoot(t, root) && vpn < NVPN
    ensures Translate(t.pages, root, vpn) ==
            (if Node(root, 0, vpn / 512) in t.dir then Slot(t.pages, t.dir[Node(root, 0, vpn / 512)], vpn % 512)
                else NoPte())
  {
    var n2 := Node(root, 2, 0);
    var i2 := vpn / 512 / 512;
    assert NodeOk(t, n2) && EntryOk(t, n2, i2) && Child(n2, i2) == Node(root, 1, i2);
    var n0 := Node(root, 0, vpn / 512);
    if n0 in t.dir {
      assert NodeOk(t, n0) && Parent(n0) == Node(root, 1, i2);
    }
    if Node(root, 1, i2) in t.dir {
      var n1 := Node(root, 1, i2);
      assert NodeOk(t, n1) && EntryOk(t, n1, vpn / 512 % 512) && Child(n1, vpn / 512 % 512) == n0;
    }
  }

  /** Different pages, of one table or of two, never share a leaf entry. */
  lemma DistinctLeaves(t: Tree, r1: nat, v1: nat, r2: nat, v2: nat)
    requires TreeOk(t) && Node(r1, 0, v1 / 512) in t.dir && Node(r2, 0, v2 / 512) in t.dir
    requires t.dir[Node(r1, 0, v1 / 512)] == t.dir[Node(r2, 0, v2 / 512)] && v1 % 512 == v2 % 512
    ensures r1 == r2 && v1 == v2
  {
    assert NodeOk(t, Node(r1, 0, v1 / 512)) && NodeOk(t, Node(r2, 0, v2 / 512));
  }

  /** A page mapped for the user is mapped once: no other user page, of any table, is backed by it. */
  lemma UserPagesDisjoint(t: Tree, r1: nat, v1: nat, r2: nat, v2: nat)
    requires TreeOk(t) && IsRoot(t, r1) && IsRoot(t, r2) && v1 < NVPN && v2 < NVPN
    requires Translate(t.pages, r1, v1).u && Translate(t.pages, r2, v2).u
    requires Translate(t.pages, r1, v1).ppn == Translate(t.pages, r2, v2).ppn
    ensures r1 == r2 && v1 == v2
  {
    UserOwned(t, r1, v1);
    UserOwned(t, r2, v2);
  }

  lemma UserOwned(t: Tree, root: nat, vpn: nat)
    requires TreeOk(t) && IsRoot(t, root) && vpn < NVPN && Translate(t.pages, root, vpn).u
    ensures Owned(t.role, Translate(t.pages, root, vpn), root, vpn)
  {
    TranslateIs(t, root, vpn);
    assert NodeOk(t, Node(root, 0, vpn / 512)) && EntryOk(t, Node(root, 0, vpn / 512), vpn % 512);
  }

  // ---- the changes the kernel makes to a tree

  function SetPte(pages: seq<Page>, p: nat, i: nat, e: Pte): seq<Page>
    requires p < |pages| && pages[p].Ptes? && i < |pages[p].e|
  {
    pages[p := Ptes(pages[p].e[i := e])]
  }

  /** A page that belongs to no tree changes hands or contents. */
  ghost predicate Loose(r: Role) { r == Free || r == Held }

  ghost function WithPage(t: Tree, p: nat, page: Page, r: Role): Tree
    requires p < |t.pages| == |t.role|
  {
    Tree(t.pages[p := page], t.role[p := r], t.dir)
  }

  lemma WithPageOk(t: Tree, p: nat, page: Page, r: Role)
    requires TreeOk(t) && p < |t.pages| && Loose(r)
    requires t.role[p] == r || Loose(t.role[p])
    ensures TreeOk(WithPage(t, p, page, r))
  {
    var t' := WithPage(t, p, page, r);
    forall n | n in t'.dir ensures NodeOk(t', n) {
      assert NodeOk(t, n);
      forall i | 0 <= i < NPTE ensures EntryOk(t', n, i) { assert EntryOk(t, n, i); }
    }
    forall q | 0 <= q < |t'.pages| ensures PageOk(t', q) {
      assert PageOk(t, q);
      if t.role[q].Data? { assert NodeOk(t, Node(t.role[q].root, 0, t.role[q].vpn / 512)); }
    }
  }

  /** A user page's bytes change. */
  ghost function WithBytes(t: Tree, p: nat, b: seq<Byte>): Tree
    requires p < |t.pages|
  {
    t.(pages := t.pages[p := Bytes(b)])
  }

  lemma WithBytesOk(t: Tree, p: nat, b: seq<Byte>)
    requires TreeOk(t) && p < |t.pages| && t.role[p].Data? && |b| == PGSIZE
    ensures TreeOk(WithBytes(t, p, b))
  {
    var t' := WithBytes(t, p, b);
    forall n | n in t'.dir ensures NodeOk(t', n) {
      assert NodeOk(t, n);
      forall i | 0 <= i < NPTE ensures EntryOk(t', n, i) { assert EntryOk(t, n, i); }
    }
    forall q | 0 <= q < |t'.pages| ensures PageOk(t', q) {
      assert PageOk(t, q);
      if t.role[q].Data? { assert NodeOk(t, Node(t.role[q].root, 0, t.role[q].vpn / 512)); }
    }
  }

  /** walk hangs a new, zeroed page-table page under entry i of n. */
  ghost function WithTable(t: Tree, n: Node, i: nat, p: nat): Tree
    requires n in t.dir && NodeOk(t, n) && n.level > 0 && i < NPTE && p < |t.role|
  {
    Tree(SetPte(t.pages, t.dir[n], i, TablePte(p)), t.role[p := Table(Child(n, i))], t.dir[Child(n, i) := p])
  }

  ghost predicate CanHang(t: Tree, n: Node, i: nat, p: nat) {
    && n in t.dir && NodeOk(t, n) && n.level > 0 && i < NPTE && !Slot(t.pages, t.dir[n], i).v
    && p < |t.role| && t.role[p] == Held && t.pages[p] == ZeroTable()
  }

  lemma WithTableNode(t: Tree, n: Node, i: nat, p: nat, m: Node)
    requires CanHang(t, n, i, p) && EntryOk(t, n, i) && m in t.dir && NodeOk(t, m)
    ensures NodeOk(WithTable(t, n, i, p), m)
  {
    var t' := WithTable(t, n, i, p);
    forall j | 0 <= j < NPTE ensures EntryOk(t', m, j) { assert EntryOk(t, m, j); }
  }

  lemma WithTableOk(t: Tree, n: Node, i: nat, p: nat)
    requires TreeOk(t) && CanHang(t, n, i, p)
    ensures TreeOk(WithTable(t, n, i, p))
  {
    var t' := WithTable(t, n, i, p);
    var c := Child(n, i);
    assert EntryOk(t, n, i);
    forall m | m in t'.dir ensures NodeOk(t', m) {
      if m != c {
        assert NodeOk(t, m);
        WithTableNode(t, n, i, p, m);
      } else {
        WithTableNew(t, n, i, p);
      }
    }
    forall q | 0 <= q < |t'.pages| ensures PageOk(t', q) {
      assert PageOk(t, q);
      if t.role[q].Data? { assert NodeOk(t, Node(t.role[q].root, 0, t.role[q].vpn / 512)); }
    }
  }

  lemma WithTableNew(t: Tree, n: Node, i: nat, p: nat)
    requires TreeOk(t) && CanHang(t, n, i, p) && EntryOk(t, n, i)
    ensures NodeOk(WithTable(t, n, i, p), Child(n, i))
  {
    var t' := WithTable(t, n, i, p);
    var c := Child(n, i);
    assert Parent(c) == n;
    forall j | 0 <= j < NPTE ensures EntryOk(t', c, j) {
      assert c.level > 0 ==> Parent(Child(c, j)) == c;
      assert c.level > 0 && Child(c, j) in t.dir ==> NodeOk(t, Child(c, j));
    }
  }

  /** uvmcreate starts a tree with a zeroed root page. */
  ghost function WithRoot(t: Tree, p: nat): Tree
    requires p < |t.role|
  {
    Tree(t.pages, t.role[p := Table(Node(p, 2, 0))], t.dir[Node(p, 2, 0) := p])
  }

  lemma WithRootOk(t: Tree, p: nat)
    requires TreeOk(t) && p < |t.role| && t.role[p] == Held && t.pages[p] == ZeroTable()
    ensures TreeOk(WithRoot(t, p))
    ensures forall n :: n in WithRoot(t, p).dir && n.root == p ==> n == Node(p, 2, 0)
  {
    var t' := WithRoot(t, p);
    var r := Node(p, 2, 0);
    forall n | n in t.dir ensures n.root != p { NoTreeAt(t, p, n); }
    forall n | n in t'.dir ensures NodeOk(t', n) {
      if n == r {
        forall i | 0 <= i < NPTE ensures EntryOk(t', r, i) { assert Child(r, i) !in t'.dir; }
      } else {
        assert NodeOk(t, n);
        forall i | 0 <= i < NPTE ensures EntryOk(t', n, i) { assert EntryOk(t, n, i); }
      }
    }
    forall q | 0 <= q < |t'.pages| ensures PageOk(t', q) { assert PageOk(t, q); }
  }

  /** A page that is nobody's table is no tree's root. */
  lemma NoTreeAt(t: Tree, p: nat, n: Node)
    requires TreeOk(t) && p < |t.role| && !t.role[p].Table? && n in t.dir
    ensures n.root != p
  {
    assert NodeOk(t, n);
    if n.level < 2 {
      assert NodeOk(t, Parent(n));
      if n.level == 0 { assert NodeOk(t, Parent(Parent(n))); }
    }
  }

  /** Entry i of leaf table n becomes e; `own` gives the page to the mapping, and a page the mapping had is let go. */
  ghost function LeafRole(role: seq<Role>, root: nat, vpn: nat, p: nat, own: bool): seq<Role> {
    seq(|role|, q requires 0 <= q < |role| =>
      if own && q == p then Data(root, vpn) else if role[q] == Data(root, vpn) then Held else role[q])
  }

  ghost function WithLeaf(t: Tree, n: Node, i: nat, e: Pte, own: bool): Tree
    requires n in t.dir && NodeOk(t, n) && i < NPTE
  {
    Tree(SetPte(t.pages, t.dir[n], i, e), LeafRole(t.role, n.root, n.prefix * 512 + i, e.ppn, own), t.dir)
  }

  ghost predicate CanMap(t: Tree, n: Node, i: nat, e: Pte, own: bool) {
    && n in t.dir && NodeOk(t, n) && n.level == 0 && i < NPTE && (IsLeaf(e) || e == NoPte()) && (e.u ==> own)
    && (own ==> e.v && e.ppn < |t.role| && t.pages[e.ppn].Bytes? && |t.pages[e.ppn].b| == PGSIZE
                && (t.role[e.ppn] == Held || t.role[e.ppn] == Data(n.root, n.prefix * 512 + i)))
  }

  lemma WithLeafNode(t: Tree, n: Node, i: nat, e: Pte, own: bool, m: Node)
    requires CanMap(t, n, i, e, own) && m in t.dir && NodeOk(t, m)
    ensures NodeOk(WithLeaf(t, n, i, e, own), m)
  {
    var t' := WithLeaf(t, n, i, e, own);
    forall j | 0 <= j < NPTE ensures EntryOk(t', m, j) { assert EntryOk(t, m, j); }
  }

  lemma WithLeafPage(t: Tree, n: Node, i: nat, e: Pte, own: bool, q: nat)
    requires TreeOk(t) && CanMap(t, n, i, e, own) && q < |t.pages|
    ensures PageOk(WithLeaf(t, n, i, e, own), q)
  {
    assert PageOk(t, q);
    if t.role[q].Data? {
      var m := Node(t.role[q].root, 0, t.role[q].vpn / 512);
      assert NodeOk(t, m);
      assert m == n ==> t.dir[m] == t.dir[n];
    }
  }

  lemma WithLeafOk(t: Tree, n: Node, i: nat, e: Pte, own: bool)
    requires TreeOk(t) && CanMap(t, n, i, e, own)
    ensures TreeOk(WithLeaf(t, n, i, e, own))
  {
    var t' := WithLeaf(t, n, i, e, own);
    forall m | m in t'.dir ensures NodeOk(t', m) {
      assert NodeOk(t, m);
      WithLeafNode(t, n, i, e, own, m);
    }
    forall q | 0 <= q < |t'.pages| ensures PageOk(t', q) { WithLeafPage(t, n, i, e, own, q); }
  }

  // ---- what the changes do to translation

  lemma WithTableTranslate(t: Tree, n: Node, i: nat, p: nat, root: nat, vpn: nat)
    requires TreeOk(t) && CanHang(t, n, i, p) && IsRoot(t, root) && vpn < NVPN
    ensures Translate(WithTable(t, n, i, p).pages, root, vpn) == Translate(t.pages, root, vpn)
  {
    var t' := WithTable(t, n, i, p);
    WithTableOk(t, n, i, p);
    TranslateIs(t, root, vpn);
    TranslateIs(t', root, vpn);
    var m := Node(root, 0, vpn / 512);
    if m in t.dir { assert NodeOk(t, m); }
    assert EntryOk(t, n, i);
  }

  lemma WithLeafTranslate(t: Tree, n: Node, i: nat, e: Pte, own: bool, root: nat, vpn: nat)
    requires TreeOk(t) && CanMap(t, n, i, e, own) && IsRoot(t, root) && vpn < NVPN
    ensures Translate(WithLeaf(t, n, i, e, own).pages, root, vpn) ==
            if root == n.root && vpn == n.prefix * 512 + i then e else Translate(t.pages, root, vpn)
  {
    WithLeafOk(t, n, i, e, own);
    TranslateIs(t, root, vpn);
    TranslateIs(WithLeaf(t, n, i, e, own), root, vpn);
    var m := Node(root, 0, vpn / 512);
    if m in t.dir { assert NodeOk(t, m); }
  }

  /** Translation only reads page-table pages. */
  lemma SameTables(t: Tree, t': Tree, root: nat, vpn: nat)
    requires TreeOk(t) && TreeOk(t') && t'.dir == t.dir && IsRoot(t, root) && vpn < NVPN
    requires forall n :: n in t.dir && n.root == root ==>
                           t.dir[n] < |t.pages| && t.dir[n] < |t'.pages| && t'.pages[t.dir[n]] == t.pages[t.dir[n]]
    ensures Translate(t'.pages, root, vpn) == Translate(t.pages, root, vpn)
  {
    TranslateIs(t, root, vpn);
    TranslateIs(t', root, vpn);
  }
}
