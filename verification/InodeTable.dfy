/** The in-memory inode table of kernel/fs.c: iget, idup, ilock, iput and ialloc of concurrent threads,
    with itable.lock released while iput frees an inode. */
module InodeTable {
  import opened Params

  const NINODE: nat := 50

  /** An inode: its type (0 when free), its link count, and everything else (`data`) together. */
  datatype Dinode = Dinode(typ: nat, nlink: nat, data: int)

  /** struct inode; `holder` is the reference that holds the sleep lock. */
  datatype Entry = Entry(inum: nat, ref: nat, valid: bool, mem: Dinode, holder: Option<nat>)

  /** What a reference is doing. Truncating: iput has decided to free the inode and holds its lock. Zeroed: the freed
      inode is on disk, the entry still valid. Dropping: the lock is released, the reference not yet given up. */
  datatype Phase = Held | Truncating | Zeroed | Dropping

  datatype Token = Token(e: nat, phase: Phase)

  /** `allocs` maps a thread inside ialloc, between writing the inode and iget, to the inode number. */
  datatype State = State(entries: seq<Entry>, tokens: map<nat, Token>, disk: seq<Dinode>, allocs: map<nat, nat>)

  datatype Event =
    | Lookup(k: nat, inum: nat, e: nat)
    | Ialloc(t: nat, inum: nat, typ: nat)
    | IallocGet(t: nat, k: nat, e: nat)
    | Idup(k: nat, k': nat)
    | Lock(k: nat)
    | Load(k: nat)
    | Update(k: nat, d: Dinode)
    | Unlock(k: nat)
    | IputFree(k: nat)
    | Zero(k: nat, data: int)
    | Invalidate(k: nat)
    | IputDrop(k: nat)

  // ---- steps; those of iget and iput run under itable.lock

  predicate Has(s: State, k: nat) {
    k in s.tokens && s.tokens[k].e < |s.entries| && s.entries[s.tokens[k].e].inum < |s.disk|
  }

  function EntryOf(s: State, k: nat): Entry
    requires Has(s, k)
  {
    s.entries[s.tokens[k].e]
  }

  function SetEntry(s: State, k: nat, n: Entry): State
    requires Has(s, k)
  {
    s.(entries := s.entries[s.tokens[k].e := n])
  }

  function SetPhase(s: State, k: nat, p: Phase): State
    requires k in s.tokens
  {
    s.(tokens := s.tokens[k := s.tokens[k].(phase := p)])
  }

  /** iget's choice: the entry that already has the inode, or else one without references. */
  predicate CanGet(s: State, k: nat, inum: nat, e: nat) {
    && k !in s.tokens && e < |s.entries| && inum < |s.disk|
    && if s.entries[e].ref > 0 then s.entries[e].inum == inum
       else forall f :: 0 <= f < |s.entries| && s.entries[f].ref > 0 ==> s.entries[f].inum != inum
  }

  function DoGet(s: State, k: nat, inum: nat, e: nat): State
    requires CanGet(s, k, inum, e)
  {
    var n := s.entries[e];
    var n' := if n.ref > 0 then n.(ref := n.ref + 1) else n.(inum := inum, ref := 1, valid := false);
    s.(entries := s.entries[e := n'], tokens := s.tokens[k := Token(e, Held)])
  }

  /** The holder of k has the inode locked and loaded. */
  predicate Owns(s: State, k: nat) {
    Has(s, k) && s.tokens[k].phase == Held && EntryOf(s, k).holder == Some(k) && EntryOf(s, k).valid
  }

  /** iput's test: the last reference to an inode without links. */
  predicate LastUnlinked(n: Entry) {
    n.ref == 1 && n.valid && n.mem.nlink == 0
  }

  ghost predicate Enabled(s: State, e: Event) {
    match e
    // a directory entry names an inode with a link
    case Lookup(k, inum, i) => CanGet(s, k, inum, i) && s.disk[inum].typ != 0 && s.disk[inum].nlink > 0
    // inode 0 is never given out
    case Ialloc(t, inum, typ) => t !in s.allocs && 0 < inum < |s.disk| && s.disk[inum].typ == 0 && typ != 0
    case IallocGet(t, k, i) => t in s.allocs && CanGet(s, k, s.allocs[t], i)
    case Idup(k, k') => Has(s, k) && s.tokens[k].phase == Held && k' !in s.tokens
    case Lock(k) => Has(s, k) && s.tokens[k].phase == Held && EntryOf(s, k).holder == None
    case Load(k) => Has(s, k) && s.tokens[k].phase == Held && EntryOf(s, k).holder == Some(k) && !EntryOf(s, k).valid
    case Update(k, d) => Owns(s, k) && d.typ != 0
    case Unlock(k) => Owns(s, k)
    case IputFree(k) =>
      Has(s, k) && s.tokens[k].phase == Held && EntryOf(s, k).holder == None && LastUnlinked(EntryOf(s, k))
    case Zero(k, _) => Has(s, k) && s.tokens[k].phase == Truncating
    case Invalidate(k) => Has(s, k) && s.tokens[k].phase == Zeroed
    case IputDrop(k) =>
      && Has(s, k) && EntryOf(s, k).ref > 0
      && (s.tokens[k].phase == Dropping ||
          (s.tokens[k].phase == Held && EntryOf(s, k).holder != Some(k) && !LastUnlinked(EntryOf(s, k))))
  }

  ghost function Apply(s: State, e: Event): State
    requires Enabled(s, e)
  {
    match e
    case Lookup(k, inum, i) => DoGet(s, k, inum, i)
    case Ialloc(t, inum, typ) => s.(disk := s.disk[inum := Dinode(typ, 0, 0)], allocs := s.allocs[t := inum])
    case IallocGet(t, k, i) => DoGet(s, k, s.allocs[t], i).(allocs := s.allocs - {t})
    case Idup(k, k') =>
      SetEntry(s, k, EntryOf(s, k).(ref := EntryOf(s, k).ref + 1)).(tokens := s.tokens[k' := s.tokens[k]])
    case Lock(k) => SetEntry(s, k, EntryOf(s, k).(holder := Some(k)))
    case Load(k) => SetEntry(s, k, EntryOf(s, k).(valid := true, mem := s.disk[EntryOf(s, k).inum]))
    case Update(k, d) => SetEntry(s, k, EntryOf(s, k).(mem := d)).(disk := s.disk[EntryOf(s, k).inum := d])
    case Unlock(k) => SetEntry(s, k, EntryOf(s, k).(holder := None))
    case IputFree(k) => SetPhase(SetEntry(s, k, EntryOf(s, k).(holder := Some(k))), k, Truncating)
    case Zero(k, data) =>
      // itrunc, type = 0, iupdate
      var d := EntryOf(s, k).mem.(typ := 0, data := data);
      SetPhase(SetEntry(s, k, EntryOf(s, k).(mem := d)).(disk := s.disk[EntryOf(s, k).inum := d]), k, Zeroed)
    case Invalidate(k) => SetPhase(SetEntry(s, k, EntryOf(s, k).(valid := false, holder := None)), k, Dropping)
    case IputDrop(k) => SetEntry(s, k, EntryOf(s, k).(ref := EntryOf(s, k).ref - 1)).(tokens := s.tokens - {k})
  }

  // ---- the invariant

  function On(tokens: map<nat, Token>, e: nat): set<nat> {
    set k | k in tokens && tokens[k].e == e
  }

  ghost predicate TokenOk(s: State, k: nat)
    requires k in s.tokens
  {
    var t := s.tokens[k];
    && t.e < |s.entries| && s.entries[t.e].inum < |s.disk|
    && var n := s.entries[t.e];
       match t.phase
       case Held => s.disk[n.inum].typ != 0
       case Truncating =>
         && n.holder == Some(k) && n.valid && n.mem == s.disk[n.inum] && n.mem.typ != 0 && n.mem.nlink == 0
         && On(s.tokens, t.e) == {k} && (forall a :: a in s.allocs ==> s.allocs[a] != n.inum)
       case Zeroed => n.holder == Some(k) && n.valid
       case Dropping => n.holder != Some(k)
  }

  /** A valid entry that nobody is freeing mirrors the disk. */
  ghost predicate EntryOk(s: State, e: nat)
    requires e < |s.entries|
  {
    var n := s.entries[e];
    && n.ref == |On(s.tokens, e)|
    && (n.holder.Some? ==> n.holder.value in On(s.tokens, e))
    && (n.ref > 0 && n.valid
        && !(n.holder.Some? && n.holder.value in s.tokens && s.tokens[n.holder.value].phase == Zeroed) ==>
          n.inum < |s.disk| && n.mem == s.disk[n.inum] && n.mem.typ != 0)
  }

  ghost predicate Unique(entries: seq<Entry>) {
    forall e, f :: 0 <= e < f < |entries| && entries[e].ref > 0 && entries[f].ref > 0 ==>
        entries[e].inum != entries[f].inum
  }

  /** An inode inside ialloc is allocated, has no link yet, and nobody holds it. */
  ghost predicate AllocOk(s: State, t: nat)
    requires t in s.allocs
  {
    && s.allocs[t] < |s.disk| && s.disk[s.allocs[t]].typ != 0 && s.disk[s.allocs[t]].nlink == 0
    && (forall u :: u in s.allocs && u != t ==> s.allocs[u] != s.allocs[t])
    && (forall k :: k in s.tokens && s.tokens[k].phase == Held && s.tokens[k].e < |s.entries| ==>
          s.entries[s.tokens[k].e].inum != s.allocs[t])
  }

  ghost predicate Inv(s: State) {
    && |s.entries| == NINODE
    && (forall k :: k in s.tokens ==> TokenOk(s, k))
    && (forall e :: 0 <= e < |s.entries| ==> EntryOk(s, e))
    && Unique(s.entries)
    && (forall t :: t in s.allocs ==> AllocOk(s, t))
  }

  // ---- every step keeps it

  lemma OnAdd(tokens: map<nat, Token>, k: nat, t: Token, e: nat)
    requires k !in tokens
    ensures On(tokens[k := t], e) == On(tokens, e) + (if t.e == e then {k} else {})
    ensures |On(tokens[k := t], e)| == |On(tokens, e)| + (if t.e == e then 1 else 0)
  {
    assert On(tokens[k := t], e) == On(tokens, e) + if t.e == e then {k} else {};
  }

  lemma OnRemove(tokens: map<nat, Token>, k: nat, e: nat)
    requires k in tokens
    ensures On(tokens - {k}, e) == On(tokens, e) - (if tokens[k].e == e then {k} else {})
    ensures |On(tokens - {k}, e)| == |On(tokens, e)| - (if tokens[k].e == e then 1 else 0)
  {
    assert On(tokens - {k}, e) == On(tokens, e) - if tokens[k].e == e then {k} else {};
  }

  lemma OnPhase(tokens: map<nat, Token>, k: nat, p: Phase, e: nat)
    requires k in tokens
    ensures On(tokens[k := tokens[k].(phase := p)], e) == On(tokens, e)
  {
  }

  /** An inode with a reference is on one entry only, and only that one can be freed. */
  lemma SameEntry(s: State, k: nat, k': nat)
    requires Inv(s) && k in s.tokens && k' in s.tokens
    requires TokenOk(s, k) && TokenOk(s, k') && s.entries[s.tokens[k].e].inum == s.entries[s.tokens[k'].e].inum
    ensures s.tokens[k].e == s.tokens[k'].e
  {
    assert EntryOk(s, s.tokens[k].e) && EntryOk(s, s.tokens[k'].e);
    assert k in On(s.tokens, s.tokens[k].e) && k' in On(s.tokens, s.tokens[k'].e);
  }

  /** What a new reference to entry e needs: an allocated inode that nobody is freeing. */
  ghost predicate GetOk(s: State, s': State, k: nat, inum: nat, e: nat) {
    && CanGet(s, k, inum, e) && s.disk[inum].typ != 0
    && (forall u :: u in s.tokens && s.tokens[u].e == e ==> s.tokens[u].phase != Truncating)
    && s' == DoGet(s, k, inum, e).(allocs := s'.allocs)
    && (forall t :: t in s'.allocs ==> t in s.allocs && s'.allocs[t] == s.allocs[t] != inum)
  }

  lemma GetEntry(s: State, s': State, k: nat, inum: nat, e: nat, f: nat)
    requires GetOk(s, s', k, inum, e) && f < |s.entries| && EntryOk(s, f)
    ensures EntryOk(s', f)
  {
    OnAdd(s.tokens, k, Token(e, Held), f);
  }

  lemma GetToken(s: State, s': State, k: nat, inum: nat, e: nat, u: nat)
    requires GetOk(s, s', k, inum, e) && u in s'.tokens
    requires u != k ==> TokenOk(s, u) && EntryOk(s, s.tokens[u].e)
    ensures TokenOk(s', u)
    ensures u != k ==> s'.entries[s'.tokens[u].e].inum == s.entries[s.tokens[u].e].inum
  {
    if u != k {
      assert u in On(s.tokens, s.tokens[u].e);
      OnAdd(s.tokens, k, Token(e, Held), s.tokens[u].e);
    }
  }

  lemma GetKeeps(s: State, s': State, k: nat, inum: nat, e: nat)
    requires Inv(s) && GetOk(s, s', k, inum, e)
    ensures Inv(s')
  {
    forall f | 0 <= f < |s.entries| ensures EntryOk(s', f) {
      GetEntry(s, s', k, inum, e, f);
    }
    forall u | u in s'.tokens
      ensures TokenOk(s', u) && (u != k ==> s'.entries[s'.tokens[u].e].inum == s.entries[s.tokens[u].e].inum)
    {
      GetToken(s, s', k, inum, e, u);
    }
    forall t | t in s'.allocs ensures AllocOk(s', t) {
      assert AllocOk(s, t);
    }
  }

  lemma LookupKeeps(s: State, k: nat, inum: nat, e: nat)
    requires Inv(s) && Enabled(s, Lookup(k, inum, e))
    ensures Inv(Apply(s, Lookup(k, inum, e)))
  {
    forall u | u in s.tokens && s.tokens[u].e == e ensures s.tokens[u].phase != Truncating {
      assert TokenOk(s, u) && EntryOk(s, e) && u in On(s.tokens, e);
    }
    assert forall t :: t in s.allocs ==> AllocOk(s, t);
    GetKeeps(s, Apply(s, Lookup(k, inum, e)), k, inum, e);
  }

  lemma IallocGetKeeps(s: State, t: nat, k: nat, e: nat)
    requires Inv(s) && Enabled(s, IallocGet(t, k, e))
    ensures Inv(Apply(s, IallocGet(t, k, e)))
  {
    assert AllocOk(s, t);
    forall u | u in s.tokens && s.tokens[u].e == e ensures s.tokens[u].phase != Truncating {
      assert TokenOk(s, u) && EntryOk(s, e) && u in On(s.tokens, e);
    }
    GetKeeps(s, Apply(s, IallocGet(t, k, e)), k, s.allocs[t], e);
  }

  /** ialloc takes an inode that is free on disk, so no reference but a dying one can be to it. */
  lemma IallocKeeps(s: State, t: nat, inum: nat, typ: nat)
    requires Inv(s) && Enabled(s, Ialloc(t, inum, typ))
    ensures Inv(Apply(s, Ialloc(t, inum, typ)))
  {
    var s' := Apply(s, Ialloc(t, inum, typ));
    forall f | 0 <= f < |s.entries| ensures EntryOk(s', f) {
      assert EntryOk(s, f);
    }
    forall u | u in s'.tokens
      ensures TokenOk(s', u) && (s.tokens[u].phase == Held ==> s.entries[s.tokens[u].e].inum != inum)
    {
      assert TokenOk(s, u);
    }
    forall u | u in s'.allocs ensures AllocOk(s', u) {
      if u != t { assert AllocOk(s, u); }
    }
  }

  /** A step on the entry of k that keeps its inode number and the set of references. */
  ghost predicate Local(s: State, s': State, k: nat) {
    && Has(s, k) && |s'.entries| == |s.entries| && |s'.disk| == |s.disk| && s'.allocs == s.allocs
    && (forall f :: 0 <= f < |s.entries| && f != s.tokens[k].e ==> s'.entries[f] == s.entries[f])
    && EntryLike(s'.entries[s.tokens[k].e], EntryOf(s, k))
    && (forall i :: 0 <= i < |s.disk| && i != EntryOf(s, k).inum ==> s'.disk[i] == s.disk[i])
    && (s'.tokens == s.tokens || exists p :: s'.tokens == s.tokens[k := s.tokens[k].(phase := p)])
  }

  predicate EntryLike(n: Entry, n0: Entry) {
    n.inum == n0.inum && n.ref == n0.ref
  }

  lemma LocalOn(s: State, s': State, k: nat, f: nat)
    requires Local(s, s', k)
    ensures On(s'.tokens, f) == On(s.tokens, f)
    ensures s'.tokens.Keys == s.tokens.Keys && (forall u :: u in s.tokens ==> s'.tokens[u].e == s.tokens[u].e)
    ensures forall u :: u in s.tokens && u != k ==> s'.tokens[u] == s.tokens[u]
  {
    if s'.tokens != s.tokens {
      var p :| s'.tokens == s.tokens[k := s.tokens[k].(phase := p)];
      OnPhase(s.tokens, k, p, f);
    }
  }

  /** An entry other than the one k works on is not affected. */
  lemma LocalEntry(s: State, s': State, k: nat, f: nat)
    requires Inv(s) && Local(s, s', k) && f < |s.entries| && f != s.tokens[k].e
    ensures EntryOk(s', f)
  {
    LocalOn(s, s', k, f);
    assert EntryOk(s, f) && EntryOk(s, s.tokens[k].e) && k in On(s.tokens, s.tokens[k].e);
    assert s.entries[f].ref > 0 ==> s.entries[f].inum != EntryOf(s, k).inum;
    assert s.entries[f].holder.Some? ==> s.entries[f].holder.value in On(s.tokens, f);
  }

  lemma LocalToken(s: State, s': State, k: nat, u: nat)
    requires Inv(s) && Local(s, s', k) && u in s.tokens && s.tokens[u].e != s.tokens[k].e
    ensures u in s'.tokens && TokenOk(s', u)
  {
    LocalOn(s, s', k, s.tokens[u].e);
    assert TokenOk(s, u) && TokenOk(s, k);
    if s.entries[s.tokens[u].e].inum == EntryOf(s, k).inum {
      SameEntry(s, k, u);
    }
  }

  /** What a local step has to show: its own entry, and the references to it. */
  lemma LocalKeeps(s: State, s': State, k: nat)
    requires Inv(s) && Local(s, s', k)
    requires EntryOk(s', s.tokens[k].e)
    requires forall u :: u in s.tokens && s.tokens[u].e == s.tokens[k].e ==> u in s'.tokens && TokenOk(s', u)
    requires forall t :: t in s.allocs && s.allocs[t] == EntryOf(s, k).inum ==>
                           s'.disk[EntryOf(s, k).inum] == s.disk[EntryOf(s, k).inum]
    requires k in s'.tokens && (s'.tokens[k].phase == Held ==> s.tokens[k].phase == Held)
    ensures Inv(s')
  {
    forall f | 0 <= f < |s'.entries| ensures EntryOk(s', f) {
      if f != s.tokens[k].e { LocalEntry(s, s', k, f); }
    }
    LocalOn(s, s', k, 0);
    forall u | u in s'.tokens ensures TokenOk(s', u) {
      if s.tokens[u].e != s.tokens[k].e { LocalToken(s, s', k, u); }
    }
    LocalAllocs(s, s', k);
  }

  lemma LocalAllocs(s: State, s': State, k: nat)
    requires Inv(s) && Local(s, s', k)
    requires forall t :: t in s.allocs && s.allocs[t] == EntryOf(s, k).inum ==>
                           s'.disk[EntryOf(s, k).inum] == s.disk[EntryOf(s, k).inum]
    requires k in s'.tokens && (s'.tokens[k].phase == Held ==> s.tokens[k].phase == Held)
    ensures forall t :: t in s'.allocs ==> AllocOk(s', t)
    ensures Unique(s'.entries)
  {
    LocalOn(s, s', k, 0);
    forall t | t in s'.allocs ensures AllocOk(s', t) {
      assert AllocOk(s, t);
      assert forall u :: u in s.tokens ==> TokenOk(s, u) ;
    }
  }

  lemma LockKeeps(s: State, k: nat)
    requires Inv(s) && Enabled(s, Lock(k))
    ensures Inv(Apply(s, Lock(k)))
  {
    var s' := Apply(s, Lock(k));
    assert EntryOk(s, s.tokens[k].e) && k in On(s.tokens, s.tokens[k].e);
    forall u | u in s.tokens && s.tokens[u].e == s.tokens[k].e ensures TokenOk(s', u) {
      assert TokenOk(s, u) && TokenOk(s, k);
    }
    LocalKeeps(s, s', k);
  }

  lemma UnlockKeeps(s: State, k: nat)
    requires Inv(s) && Enabled(s, Unlock(k))
    ensures Inv(Apply(s, Unlock(k)))
  {
    var s' := Apply(s, Unlock(k));
    assert EntryOk(s, s.tokens[k].e) && k in On(s.tokens, s.tokens[k].e);
    forall u | u in s.tokens && s.tokens[u].e == s.tokens[k].e ensures TokenOk(s', u) {
      assert TokenOk(s, u) && TokenOk(s, k);
    }
    LocalKeeps(s, s', k);
  }

  lemma LoadKeeps(s: State, k: nat)
    requires Inv(s) && Enabled(s, Load(k))
    ensures Inv(Apply(s, Load(k)))
  {
    var s' := Apply(s, Load(k));
    assert EntryOk(s, s.tokens[k].e) && TokenOk(s, k);
    forall u | u in s.tokens && s.tokens[u].e == s.tokens[k].e ensures TokenOk(s', u) {
      assert TokenOk(s, u);
    }
    LocalKeeps(s, s', k);
  }

  lemma UpdateKeeps(s: State, k: nat, d: Dinode)
    requires Inv(s) && Enabled(s, Update(k, d))
    ensures Inv(Apply(s, Update(k, d)))
  {
    var s' := Apply(s, Update(k, d));
    assert EntryOk(s, s.tokens[k].e) && TokenOk(s, k);
    forall u | u in s.tokens && s.tokens[u].e == s.tokens[k].e ensures TokenOk(s', u) {
      assert TokenOk(s, u);
    }
    assert forall t :: t in s.allocs ==> AllocOk(s, t);
    LocalKeeps(s, s', k);
  }

  /** The last reference to an inode without links is alone on the entry, and no ialloc is giving it out. */
  lemma IputFreeKeeps(s: State, k: nat)
    requires Inv(s) && Enabled(s, IputFree(k))
    ensures Inv(Apply(s, IputFree(k)))
  {
    var s' := Apply(s, IputFree(k));
    var e := s.tokens[k].e;
    assert EntryOk(s, e) && TokenOk(s, k);
    OnPhase(s.tokens, k, Truncating, e);
    assert k in On(s.tokens, e);
    SingleOn(s.tokens, e, k);
    assert forall t :: t in s.allocs ==> AllocOk(s, t);
    assert Local(s, s', k);
    LocalKeeps(s, s', k);
  }

  lemma SingleOn(tokens: map<nat, Token>, e: nat, k: nat)
    requires |On(tokens, e)| == 1 && k in On(tokens, e)
    ensures On(tokens, e) == {k}
  {
    assert |On(tokens, e) - {k}| == 0;
  }

  lemma ZeroKeeps(s: State, k: nat, data: int)
    requires Inv(s) && Enabled(s, Zero(k, data))
    ensures Inv(Apply(s, Zero(k, data)))
  {
    var s' := Apply(s, Zero(k, data));
    var e := s.tokens[k].e;
    assert EntryOk(s, e) && TokenOk(s, k);
    OnPhase(s.tokens, k, Zeroed, e);
    forall u | u in s.tokens && s.tokens[u].e == e ensures u == k {
      assert u in On(s.tokens, e);
    }
    assert Local(s, s', k);
    LocalKeeps(s, s', k);
  }

  lemma InvalidateKeeps(s: State, k: nat)
    requires Inv(s) && Enabled(s, Invalidate(k))
    ensures Inv(Apply(s, Invalidate(k)))
  {
    var s' := Apply(s, Invalidate(k));
    var e := s.tokens[k].e;
    assert EntryOk(s, e) && TokenOk(s, k);
    OnPhase(s.tokens, k, Dropping, e);
    forall u | u in s.tokens && s.tokens[u].e == e ensures TokenOk(s', u) {
      assert TokenOk(s, u);
    }
    assert Local(s, s', k);
    LocalKeeps(s, s', k);
  }

  lemma IdupKeeps(s: State, k: nat, k': nat)
    requires Inv(s) && Enabled(s, Idup(k, k'))
    ensures Inv(Apply(s, Idup(k, k')))
  {
    var e := s.tokens[k].e;
    assert TokenOk(s, k) && EntryOk(s, e) && k in On(s.tokens, e);
    forall u | u in s.tokens && s.tokens[u].e == e ensures s.tokens[u].phase != Truncating {
      assert TokenOk(s, u);
    }
    assert forall t :: t in s.allocs ==> AllocOk(s, t);
    GetKeeps(s, Apply(s, Idup(k, k')), k', s.entries[e].inum, e);
  }

  /** Giving up a reference leaves the other references and the other entries as they are. */
  ghost predicate Dropped(s: State, s': State, k: nat) {
    && Enabled(s, IputDrop(k)) && s' == Apply(s, IputDrop(k))
  }

  lemma DropEntry(s: State, s': State, k: nat, f: nat)
    requires Dropped(s, s', k) && TokenOk(s, k) && f < |s.entries| && EntryOk(s, f)
    ensures EntryOk(s', f)
  {
    OnRemove(s.tokens, k, f);
  }

  lemma DropToken(s: State, s': State, k: nat, u: nat)
    requires Dropped(s, s', k) && u in s'.tokens && TokenOk(s, u)
    ensures TokenOk(s', u) && s'.entries[s'.tokens[u].e].inum == s.entries[s.tokens[u].e].inum
  {
    OnRemove(s.tokens, k, s.tokens[u].e);
    assert s.tokens[k].e == s.tokens[u].e ==> k in On(s.tokens, s.tokens[u].e);
  }

  lemma IputDropKeeps(s: State, k: nat)
    requires Inv(s) && Enabled(s, IputDrop(k))
    ensures Inv(Apply(s, IputDrop(k)))
  {
    var s' := Apply(s, IputDrop(k));
    forall f | 0 <= f < |s'.entries| ensures EntryOk(s', f) {
      DropEntry(s, s', k, f);
    }
    forall u | u in s'.tokens
      ensures TokenOk(s', u) && s'.entries[s'.tokens[u].e].inum == s.entries[s.tokens[u].e].inum
    {
      DropToken(s, s', k, u);
    }
    forall t | t in s'.allocs ensures AllocOk(s', t) {
      assert AllocOk(s, t);
    }
  }

  lemma StepKeeps(s: State, e: Event)
    requires Inv(s) && Enabled(s, e)
    ensures Inv(Apply(s, e))
  {
    match e
    case Lookup(k, inum, i) => LookupKeeps(s, k, inum, i);
    case Ialloc(t, inum, typ) => IallocKeeps(s, t, inum, typ);
    case IallocGet(t, k, i) => IallocGetKeeps(s, t, k, i);
    case Idup(k, k') => IdupKeeps(s, k, k');
    case Lock(k) => LockKeeps(s, k);
    case Load(k) => LoadKeeps(s, k);
    case Update(k, d) => UpdateKeeps(s, k, d);
    case Unlock(k) => UnlockKeeps(s, k);
    case IputFree(k) => IputFreeKeeps(s, k);
    case Zero(k, data) => ZeroKeeps(s, k, data);
    case Invalidate(k) => InvalidateKeeps(s, k);
    case IputDrop(k) => IputDropKeeps(s, k);
  }

  // ---- runs

  /** iinit: no entry is referenced or locked; the disk is arbitrary. */
  ghost predicate Init(s: State) {
    && |s.entries| == NINODE && s.tokens == map[] && s.allocs == map[]
    && (forall e :: 0 <= e < |s.entries| ==> s.entries[e].ref == 0 && s.entries[e].holder == None)
  }

  ghost predicate Run(states: seq<State>, events: seq<Event>) {
    && |states| == |events| + 1 && Init(states[0])
    && (forall i :: 0 <= i < |events| ==> Step(states, events, i))
  }

  ghost predicate Step(states: seq<State>, events: seq<Event>, i: nat)
    requires i < |events| && |states| == |events| + 1
  {
    Enabled(states[i], events[i]) && states[i + 1] == Apply(states[i], events[i])
  }

  lemma {:induction false} RunKeeps(states: seq<State>, events: seq<Event>, i: nat)
    requires Run(states, events) && i < |states|
    ensures Inv(states[i])
  {
    if i == 0 {
      forall e | 0 <= e < NINODE ensures EntryOk(states[0], e) {
        assert On(states[0].tokens, e) == {};
      }
    } else {
      RunKeeps(states, events, i - 1);
      assert Step(states, events, i - 1);
      StepKeeps(states[i - 1], events[i - 1]);
    }
  }

  /** Whoever has an inode locked and loaded sees what is on the disk, and it is an allocated inode;
      a thread about to load one reads an allocated inode, so ilock's "no type" panic cannot strike. */
  lemma NeverStale(states: seq<State>, events: seq<Event>, i: nat, k: nat)
    requires Run(states, events) && i < |states| && Has(states[i], k) && states[i].tokens[k].phase == Held
    requires EntryOf(states[i], k).holder == Some(k)
    ensures states[i].disk[EntryOf(states[i], k).inum].typ != 0
    ensures EntryOf(states[i], k).valid ==> EntryOf(states[i], k).mem == states[i].disk[EntryOf(states[i], k).inum]
  {
    var s := states[i];
    RunKeeps(states, events, i);
    assert TokenOk(s, k) && EntryOk(s, s.tokens[k].e) && k in On(s.tokens, s.tokens[k].e);
  }

  /** Two references to one inode share one entry, and the entry's count is the number of references. */
  lemma OneEntryPerInode(states: seq<State>, events: seq<Event>, i: nat, k: nat, k': nat)
    requires Run(states, events) && i < |states| && Has(states[i], k) && Has(states[i], k')
    ensures EntryOf(states[i], k).inum == EntryOf(states[i], k').inum <==>
            states[i].tokens[k].e == states[i].tokens[k'].e
    ensures EntryOf(states[i], k).ref == |On(states[i].tokens, states[i].tokens[k].e)| > 0
  {
    var s := states[i];
    RunKeeps(states, events, i);
    assert TokenOk(s, k) && TokenOk(s, k') && EntryOk(s, s.tokens[k].e) && k in On(s.tokens, s.tokens[k].e);
    if EntryOf(s, k).inum == EntryOf(s, k').inum { SameEntry(s, k, k'); }
  }

  /** When iput finds the last reference to an unlinked inode, nobody has it locked: its acquiresleep does not wait. */
  lemma FreeingDoesNotWait(states: seq<State>, events: seq<Event>, i: nat, k: nat)
    requires Run(states, events) && i < |states| && Has(states[i], k) && states[i].tokens[k].phase == Held
    requires LastUnlinked(EntryOf(states[i], k)) && EntryOf(states[i], k).holder != Some(k)
    ensures Enabled(states[i], IputFree(k))
  {
    var s := states[i];
    RunKeeps(states, events, i);
    assert TokenOk(s, k) && EntryOk(s, s.tokens[k].e) && k in On(s.tokens, s.tokens[k].e);
    SingleOn(s.tokens, s.tokens[k].e, k);
  }

  /** While iput frees an inode without itable.lock, no other reference to it exists. */
  lemma FreedAlone(states: seq<State>, events: seq<Event>, i: nat, k: nat, k': nat)
    requires Run(states, events) && i < |states| && Has(states[i], k) && Has(states[i], k') && k != k'
    requires EntryOf(states[i], k).inum == EntryOf(states[i], k').inum
    ensures states[i].tokens[k].phase != Truncating
  {
    var s := states[i];
    RunKeeps(states, events, i);
    assert TokenOk(s, k) && TokenOk(s, k');
    SameEntry(s, k, k');
    assert k in On(s.tokens, s.tokens[k].e) && k' in On(s.tokens, s.tokens[k].e);
  }

  /** ialloc never gives out an inode that a live reference is to. */
  lemma AllocatesUnreferenced(states: seq<State>, events: seq<Event>, i: nat, t: nat, inum: nat, typ: nat, k: nat)
    requires Run(states, events) && i < |states| && Enabled(states[i], Ialloc(t, inum, typ))
    requires Has(states[i], k) && states[i].tokens[k].phase == Held
    ensures EntryOf(states[i], k).inum != inum
  {
    RunKeeps(states, events, i);
    assert TokenOk(states[i], k);
  }
}
