/** How many page-table pages it takes to map a range, and what walk has made of them when the free pages run out. */
module TableCost {
  import opened PageTable

  type Dir = map<Node, nat>

  /** The tables walk needs below the root for page v. */
  ghost function Path(root: nat, v: nat): set<Node> {
    {Node(root, 1, v / 512 / 512), Node(root, 0, v / 512)}
  }

  /** Those for pages lo to hi. */
  ghost function Paths(root: nat, lo: nat, hi: nat): set<Node> {
    if hi <= lo then {} else Paths(root, lo, hi - 1) + Path(root, hi - 1)
  }

  /** Tables were only added, out of `path`, one for each page that left the free list, which had f pages and now has
      f'. */
  ghost predicate Dug(d: Dir, f: nat, d': Dir, f': nat, path: set<Node>) {
    && d.Keys <= d'.Keys <= d.Keys + path && (forall n :: n in d ==> d'[n] == d[n])
    && f' + |d'| == f + |d|
  }

  lemma DugNothing(d: Dir, f: nat, path: set<Node>)
    ensures Dug(d, f, d, f, path)
  {
  }

  lemma DugTrans(d: Dir, f: nat, d1: Dir, f1: nat, d2: Dir, f2: nat, p: set<Node>, q: set<Node>, all: set<Node>)
    requires Dug(d, f, d1, f1, p) && Dug(d1, f1, d2, f2, q) && p + q <= all
    ensures Dug(d, f, d2, f2, all)
  {
  }

  lemma DugOne(d: Dir, f: nat, n: Node, p: nat, path: set<Node>)
    requires n !in d && f > 0 && n in path
    ensures Dug(d, f, d[n := p], f - 1, path)
  {
    assert d[n := p].Keys == d.Keys + {n};
  }

  lemma {:induction false} PathsMono(root: nat, lo: nat, mid: nat, hi: nat)
    requires mid <= hi
    ensures Paths(root, lo, mid) <= Paths(root, lo, hi)
    decreases hi
  {
    if mid < hi && lo < hi { PathsMono(root, lo, mid, hi - 1); }
  }

  lemma {:induction false} InPaths(root: nat, lo: nat, hi: nat, v: nat)
    requires lo <= v < hi
    ensures Path(root, v) <= Paths(root, lo, hi)
    decreases hi
  {
    if v < hi - 1 { InPaths(root, lo, hi - 1, v); }
  }

  // ---- the cost of a range

  /** The tables that are missing, and the pages it takes to map lo to hi: one for each page and one for each missing
      table. */
  ghost function Missing(d: Dir, root: nat, lo: nat, hi: nat): set<Node> {
    Paths(root, lo, hi) - d.Keys
  }

  ghost function Cost(d: Dir, root: nat, lo: nat, hi: nat): nat {
    if hi <= lo then 0 else hi - lo + |Missing(d, root, lo, hi)|
  }

  /** Pages lo to a have been added, with all their tables. */
  ghost predicate Progress(d: Dir, f: nat, d': Dir, f': nat, root: nat, lo: nat, a: nat) {
    && lo <= a && d'.Keys == d.Keys + Paths(root, lo, a) && (forall n :: n in d ==> d'[n] == d[n])
    && f' + |d'| + (a - lo) == f + |d|
  }

  lemma KeysSize(d: Dir)
    ensures |d| == |d.Keys|
  {
  }

  lemma UnionSize(a: set<Node>, b: set<Node>)
    ensures |a + b| == |a| + |b - a|
  {
    assert a + b == a + (b - a);
  }

  lemma SubsetSize(a: set<Node>, b: set<Node>)
    requires a <= b
    ensures |a| <= |b| && (a != b ==> |a| < |b|)
  {
    assert b == a + (b - a);
    if a != b {
      var x :| x in b - a;
      assert |b - a| > 0;
    }
  }

  /** What is left when lo to a are mapped. */
  lemma ProgressCost(d: Dir, f: nat, d': Dir, f': nat, root: nat, lo: nat, a: nat)
    requires Progress(d, f, d', f', root, lo, a)
    ensures f == f' + Cost(d, root, lo, a)
  {
    KeysSize(d);
    KeysSize(d');
    UnionSize(d.Keys, Paths(root, lo, a));
    if a == lo { assert Paths(root, lo, a) == {}; }
  }

  lemma CostMono(d: Dir, root: nat, lo: nat, mid: nat, hi: nat)
    requires lo <= mid <= hi
    ensures Cost(d, root, lo, mid) + (hi - mid) <= Cost(d, root, lo, hi)
  {
    PathsMono(root, lo, mid, hi);
    SubsetSize(Missing(d, root, lo, mid), Missing(d, root, lo, hi));
    if lo == mid { assert Missing(d, root, lo, mid) == {}; }
  }

  /** A page was free for page v, and enough for its tables. */
  ghost predicate Fits(d: Dir, f: nat, d': Dir, f': nat, root: nat, v: nat) {
    f > 0 && Dug(d, f - 1, d', f', Path(root, v)) && Path(root, v) <= d'.Keys
  }

  /** No page was free, or the rest went into tables and one is still missing. */
  ghost predicate Short(d: Dir, f: nat, d': Dir, root: nat, v: nat) {
    (f == 0 && d' == d) || (f > 0 && Dug(d, f - 1, d', 0, Path(root, v)) && !(Path(root, v) <= d'.Keys))
  }

  /** One more page. */
  lemma ProgressNext(d: Dir, f: nat, d1: Dir, f1: nat, d2: Dir, f2: nat, root: nat, lo: nat, a: nat)
    requires Progress(d, f, d1, f1, root, lo, a) && Fits(d1, f1, d2, f2, root, a)
    ensures Progress(d, f, d2, f2, root, lo, a + 1)
  {
    Squeeze(d1.Keys, Path(root, a), d2.Keys);
    PathsNext(d.Keys, root, lo, a);
    forall n | n in d ensures d2[n] == d[n] { assert n in d1; }
  }

  lemma PathsNext(k: set<Node>, root: nat, lo: nat, a: nat)
    requires lo <= a
    ensures k + Paths(root, lo, a) + Path(root, a) == k + Paths(root, lo, a + 1)
  {
  }

  lemma Squeeze(a: set<Node>, b: set<Node>, c: set<Node>)
    requires a <= c <= a + b && b <= c
    ensures c == a + b
  {
  }

  lemma NoneMissing(a: set<Node>, b: set<Node>)
    requires a - b == {}
    ensures a <= b
  {
    forall x | x in a ensures x in b { assert x !in a - b; }
  }

  // ---- when it runs out

  /** The state after a failure at page a: the tables of lo to a, some of those of a, and none beyond; a page short. */
  ghost predicate Stuck(d: Dir, f: nat, d': Dir, root: nat, lo: nat, a: nat) {
    && lo <= a && d.Keys + Paths(root, lo, a) <= d'.Keys <= d.Keys + Paths(root, lo, a + 1)
    && (forall n :: n in d ==> d'[n] == d[n])
    && f < Cost(d, root, lo, a + 1) && Cost(d, root, lo, a) <= f
    && |d'| == |d| + (if f == Cost(d, root, lo, a) then |Missing(d, root, lo, a)| else f - 1 - (a - lo))
  }

  /** kalloc failed for the data page, or walk used up the rest and wanted more. */
  lemma StuckAt(d: Dir, f: nat, d1: Dir, f1: nat, d2: Dir, root: nat, lo: nat, a: nat)
    requires Progress(d, f, d1, f1, root, lo, a) && Short(d1, f1, d2, root, a)
    ensures Stuck(d, f, d2, root, lo, a) && (a - lo) + (if f1 == 0 then 0 else 1) + |d2| == f + |d|
  {
    ProgressCost(d, f, d1, f1, root, lo, a);
    StuckKeys(d, d1, d2, root, lo, a);
    CostNext(d, d1, root, lo, a);
    StuckCount(d1, f1, d2, d.Keys + Paths(root, lo, a + 1), Path(root, a));
  }

  lemma StuckKeys(d: Dir, d1: Dir, d2: Dir, root: nat, lo: nat, a: nat)
    requires lo <= a && d1.Keys == d.Keys + Paths(root, lo, a) && d1.Keys <= d2.Keys <= d1.Keys + Path(root, a)
    ensures d1.Keys + Path(root, a) == d.Keys + Paths(root, lo, a + 1)
    ensures d.Keys + Paths(root, lo, a) <= d2.Keys <= d.Keys + Paths(root, lo, a + 1)
  {
  }

  /** All free pages went into tables, and one more was wanted. */
  lemma StuckCount(d1: Dir, f1: nat, d2: Dir, all: set<Node>, path: set<Node>)
    requires all == d1.Keys + path
    requires (f1 == 0 && d2 == d1) || (f1 > 0 && Dug(d1, f1 - 1, d2, 0, path) && !(path <= d2.Keys))
    ensures f1 + |d1| < |all| + 1
    ensures |d2| == |d1| + if f1 == 0 then 0 else f1 - 1
  {
    KeysSize(d1);
    KeysSize(d2);
    SubsetSize(d1.Keys, all);
    SubsetSize(d2.Keys, all);
  }

  /** The cost up to and with page a, from the tables there are before it. */
  lemma CostNext(d: Dir, d1: Dir, root: nat, lo: nat, a: nat)
    requires lo <= a && d1.Keys == d.Keys + Paths(root, lo, a)
    ensures |d.Keys + Paths(root, lo, a + 1)| + (a + 1 - lo) == |d| + Cost(d, root, lo, a + 1)
    ensures |d1| + (a - lo) == |d| + Cost(d, root, lo, a)
    ensures |d.Keys + Paths(root, lo, a + 1)| >= |d1|
  {
    KeysSize(d);
    KeysSize(d1);
    UnionSize(d.Keys, Paths(root, lo, a));
    UnionSize(d.Keys, Paths(root, lo, a + 1));
    SubsetSize(d1.Keys, d.Keys + Paths(root, lo, a + 1));
    if a == lo { assert Paths(root, lo, a) == {}; }
  }

  lemma StuckShort(d: Dir, f: nat, d': Dir, root: nat, lo: nat, a: nat, hi: nat)
    requires Stuck(d, f, d', root, lo, a) && a < hi
    ensures f < Cost(d, root, lo, hi)
  {
    CostMono(d, root, lo, a + 1, hi);
  }

  lemma ProgressStart(d: Dir, f: nat, root: nat, lo: nat)
    ensures Progress(d, f, d, f, root, lo, lo)
  {
    assert Paths(root, lo, lo) == {};
  }

  /** In terms of the caller: no table is left over if and only if none was missing up to the page that failed, or the
      free pages ran out before the first missing one could be made. `first` is the first page that misses a table. */
  lemma NoTableLeft(d: Dir, f: nat, d': Dir, root: nat, lo: nat, a: nat, hi: nat, first: nat)
    requires Stuck(d, f, d', root, lo, a) && a < hi && lo <= first <= hi
    requires Missing(d, root, lo, first) == {} && (first < hi ==> !(Path(root, first) <= d.Keys))
    ensures d' == d <==> first == hi || f <= first - lo + 1
  {
    if a < first {
      StuckBefore(d, f, d', root, lo, a, first);
    } else if a == first {
      StuckFirst(d, f, d', root, lo, first);
    } else {
      StuckAfter(d, f, d', root, lo, a, first);
    }
  }

  lemma StuckBefore(d: Dir, f: nat, d': Dir, root: nat, lo: nat, a: nat, first: nat)
    requires Stuck(d, f, d', root, lo, a) && a < first && Missing(d, root, lo, first) == {}
    ensures d' == d && f <= first - lo
  {
    PathsMono(root, lo, a + 1, first);
    NoneMissing(Paths(root, lo, first), d.Keys);
    assert d'.Keys == d.Keys;
    FirstMissing(d, root, lo, first);
    CostMono(d, root, lo, a + 1, first);
  }

  lemma StuckFirst(d: Dir, f: nat, d': Dir, root: nat, lo: nat, first: nat)
    requires Stuck(d, f, d', root, lo, first) && Missing(d, root, lo, first) == {}
    ensures d' == d <==> f <= first - lo + 1
  {
    FirstMissing(d, root, lo, first);
    KeysSize(d);
    KeysSize(d');
    SubsetSize(d.Keys, d'.Keys);
    if f <= first - lo + 1 { assert d'.Keys == d.Keys; }
  }

  lemma StuckAfter(d: Dir, f: nat, d': Dir, root: nat, lo: nat, a: nat, first: nat)
    requires Stuck(d, f, d', root, lo, a) && lo <= first < a && !(Path(root, first) <= d.Keys)
    ensures d' != d && f > first - lo + 1
  {
    InPaths(root, lo, a, first);
    MissingSome(d, root, lo, first);
    CostMono(d, root, lo, first + 1, a);
  }

  lemma FirstMissing(d: Dir, root: nat, lo: nat, first: nat)
    requires lo <= first && Missing(d, root, lo, first) == {}
    ensures Cost(d, root, lo, first) == first - lo
  {
    if first == lo { assert Cost(d, root, lo, first) == 0; }
  }

  lemma MissingSome(d: Dir, root: nat, lo: nat, first: nat)
    requires lo <= first && !(Path(root, first) <= d.Keys)
    ensures Cost(d, root, lo, first + 1) >= first - lo + 2
  {
    var n :| n in Path(root, first) && n !in d.Keys;
    assert n in Missing(d, root, lo, first + 1);
  }
}
