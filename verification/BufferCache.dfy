/** The buffer cache of kernel/bio.c: NBUF buffers on a circular doubly linked list through
    `next` and `prev`, most recently used first. */
module BufferCache {
  import opened Params
  import opened DiskLayout
  import LogMachine

  /** The list head is node NBUF of the same array. */
  const HEAD: nat := NBUF

  datatype Node = Node(dev: nat, blockno: nat, valid: bool, refcnt: nat, next: nat, prev: nat)

  /** Position i of the list, where -1 and |order| both are the head. */
  function At(order: seq<nat>, i: int): nat {
    if 0 <= i < |order| then order[i] else HEAD
  }

  /** The links of `nodes` chain exactly the buffers of `order`, in that order, in both directions. */
  ghost predicate Linked(nodes: seq<Node>, order: seq<nat>) {
    && |nodes| == NBUF + 1 && NoDup(order)
    && (forall i :: 0 <= i < |order| ==> order[i] < NBUF)
    && (forall i :: -1 <= i < |order| ==> nodes[At(order, i)].next == At(order, i + 1))
    && (forall i :: 0 <= i <= |order| ==> nodes[At(order, i)].prev == At(order, i - 1))
  }

  function Unlink(nodes: seq<Node>, b: nat): seq<Node>
    requires |nodes| == NBUF + 1 && b < NBUF && nodes[b].next <= NBUF && nodes[b].prev <= NBUF
  {
    var n1 := nodes[nodes[b].next := nodes[nodes[b].next].(prev := nodes[b].prev)];
    n1[n1[b].prev := n1[n1[b].prev].(next := n1[b].next)]
  }

  function PushFront(nodes: seq<Node>, b: nat): seq<Node>
    requires |nodes| == NBUF + 1 && b < NBUF && nodes[HEAD].next <= NBUF
  {
    var n1 := nodes[b := nodes[b].(next := nodes[HEAD].next, prev := HEAD)];
    var n2 := n1[n1[HEAD].next := n1[n1[HEAD].next].(prev := b)];
    n2[HEAD := n2[HEAD].(next := b)]
  }

  function Without(order: seq<nat>, k: nat): seq<nat>
    requires k < |order|
  {
    order[..k] + order[k + 1..]
  }

  lemma UnlinkLinks(nodes: seq<Node>, order: seq<nat>, k: nat)
    requires Linked(nodes, order) && k < |order|
    ensures nodes[order[k]].next <= NBUF && nodes[order[k]].prev <= NBUF
    ensures Linked(Unlink(nodes, order[k]), Without(order, k))
  {
    var b := order[k];
    var rest := Without(order, k);
    assert At(order, k) == b;
    assert nodes[b].next == At(order, k + 1) && nodes[b].prev == At(order, k - 1);
    var n := Unlink(nodes, b);
    assert forall i :: -1 <= i < k ==> At(rest, i) == At(order, i);
    assert forall i :: k <= i <= |rest| ==> At(rest, i) == At(order, i + 1);
    forall i | -1 <= i < |rest| ensures n[At(rest, i)].next == At(rest, i + 1) {
      if i != k - 1 {
        assert At(rest, i) != nodes[b].prev;
      }
    }
    forall i | 0 <= i <= |rest| ensures n[At(rest, i)].prev == At(rest, i - 1) {
      if i != k {
        assert At(rest, i) != nodes[b].next;
      }
    }
  }

  lemma PushFrontLinks(nodes: seq<Node>, order: seq<nat>, b: nat)
    requires Linked(nodes, order) && b < NBUF && b !in order
    ensures nodes[HEAD].next <= NBUF
    ensures Linked(PushFront(nodes, b), [b] + order)
  {
    var all := [b] + order;
    assert nodes[At(order, -1)].next == At(order, 0);
    var n := PushFront(nodes, b);
    assert forall i :: 1 <= i <= |all| ==> At(all, i) == At(order, i - 1);
    forall i | -1 <= i < |all| ensures n[At(all, i)].next == At(all, i + 1) {
      if i >= 1 { assert nodes[At(order, i - 1)].next == At(order, i); }
    }
    forall i | 0 <= i <= |all| ensures n[At(all, i)].prev == At(all, i - 1) {
      if i >= 2 { assert nodes[At(order, i - 1)].prev == At(order, i - 2); }
    }
  }

  predicate Holds(n: Node, dev: nat, blockno: nat) {
    n.dev == dev && n.blockno == blockno
  }

  /** What bget does to the buffers: a hit adds a reference; otherwise the least recently used
      unreferenced buffer is recycled; with neither, it panics ("no buffers"). */
  ghost predicate GetPost(nodes: seq<Node>, order: seq<nat>, dev: nat, blockno: nat,
                          b: Option<nat>, nodes': seq<Node>)
  {
    match b
    case Some(i) =>
      && i < NBUF < |nodes| == |nodes'|
      && (Holds(nodes[i], dev, blockno) ==> nodes' == nodes[i := nodes[i].(refcnt := nodes[i].refcnt + 1)])
      && (!Holds(nodes[i], dev, blockno) ==>
            && (forall j :: 0 <= j < NBUF ==> !Holds(nodes[j], dev, blockno))
            && nodes[i].refcnt == 0
            && (exists p :: 0 <= p < |order| && order[p] == i &&
                  forall q :: p < q < |order| && order[q] < NBUF ==> nodes[order[q]].refcnt > 0)
            && nodes' == nodes[i := nodes[i].(dev := dev, blockno := blockno, valid := false, refcnt := 1)])
    case None =>
      && nodes' == nodes && |nodes| > NBUF
      && forall j :: 0 <= j < NBUF ==> !Holds(nodes[j], dev, blockno) && nodes[j].refcnt > 0
  }

  class Cache {
    const bufs: array<Node>
    /** The buffers from the most to the least recently used. */
    ghost var order: seq<nat>

    ghost predicate Valid()
      reads this, bufs
    {
      && Linked(bufs[..], order)
      && (forall b :: 0 <= b < NBUF ==> b in order)
    }

    /** binit. */
    constructor ()
      ensures Valid() && fresh(bufs)
      ensures order == seq(NBUF, i requires 0 <= i < NBUF => NBUF - 1 - i as nat)
      ensures forall b :: 0 <= b < NBUF ==> bufs[b].dev == 0 && bufs[b].refcnt == 0 && !bufs[b].valid
    {
      bufs := new Node[NBUF + 1](i => Node(0, 0, false, 0, HEAD, HEAD));
      order := [];
      new;
      var b := 0;
      while b < NBUF
        invariant b <= NBUF && Linked(bufs[..], order)
        invariant order == seq(b, i requires 0 <= i < b => b - 1 - i as nat)
        invariant forall j :: 0 <= j < NBUF ==> bufs[j].dev == 0 && bufs[j].refcnt == 0 && !bufs[j].valid
      {
        InsertFirst(b);
        b := b + 1;
      }
      forall j | 0 <= j < NBUF ensures j in order {
        assert order[NBUF - 1 - j] == j;
      }
    }

    /** bget's first loop, from the most recently used: the buffer of the block, or HEAD. */
    method FindCached(dev: nat, blockno: nat) returns (cur: nat)
      requires Valid()
      ensures cur <= NBUF
      ensures cur < NBUF ==> Holds(bufs[cur], dev, blockno)
      ensures cur == HEAD ==> forall j :: 0 <= j < NBUF ==> !Holds(bufs[j], dev, blockno)
    {
      cur := bufs[HEAD].next;
      ghost var p := 0;
      assert bufs[..][At(order, -1)].next == At(order, 0);
      while cur != HEAD
        invariant 0 <= p <= |order| && cur == At(order, p)
        invariant forall q :: 0 <= q < p ==> !Holds(bufs[order[q]], dev, blockno)
        decreases |order| - p
      {
        if bufs[cur].dev == dev && bufs[cur].blockno == blockno {
          return;
        }
        assert bufs[..][At(order, p)].next == At(order, p + 1);
        cur := bufs[cur].next;
        p := p + 1;
      }
      forall j | 0 <= j < NBUF ensures !Holds(bufs[j], dev, blockno) {
        assert j in order;
      }
    }

    /** bget's second loop, from the least recently used: the first unreferenced buffer, or HEAD. */
    method FindUnused() returns (cur: nat, ghost p: int)
      requires Valid()
      ensures cur <= NBUF
      ensures cur < NBUF ==>
                && bufs[cur].refcnt == 0 && 0 <= p < |order| && order[p] == cur
                && forall q :: p < q < |order| ==> bufs[order[q]].refcnt > 0
      ensures cur == HEAD ==> forall j :: 0 <= j < NBUF ==> bufs[j].refcnt > 0
    {
      cur := bufs[HEAD].prev;
      p := |order| - 1;
      assert bufs[..][At(order, |order|)].prev == At(order, p);
      while cur != HEAD
        invariant -1 <= p < |order| && cur == At(order, p)
        invariant forall q :: p < q < |order| ==> bufs[order[q]].refcnt > 0
        decreases p + 1
      {
        if bufs[cur].refcnt == 0 {
          return;
        }
        assert bufs[..][At(order, p)].prev == At(order, p - 1);
        cur := bufs[cur].prev;
        p := p - 1;
      }
      forall j | 0 <= j < NBUF ensures bufs[j].refcnt > 0 {
        assert j in order;
      }
    }

    /** bget, up to the acquiresleep. */
    method Bget(dev: nat, blockno: nat) returns (b: Option<nat>)
      requires Valid()
      modifies bufs
      ensures Valid() && order == old(order)
      ensures GetPost(old(bufs[..]), order, dev, blockno, b, bufs[..])
    {
      var cur := FindCached(dev, blockno);
      if cur != HEAD {
        bufs[cur] := bufs[cur].(refcnt := bufs[cur].refcnt + 1);
        return Some(cur);
      }
      // A miss: `FindUnused` goes backwards, so the buffer it finds was released before all other unused ones.
      ghost var p;
      cur, p := FindUnused();
      if cur != HEAD {
        bufs[cur] := bufs[cur].(dev := dev, blockno := blockno, valid := false, refcnt := 1);
        return Some(cur);
      }
      return None;
    }

    /** brelse takes b out of the list. */
    method Remove(b: nat, ghost k: nat)
      requires Linked(bufs[..], order) && k < |order| && order[k] == b
      modifies this, bufs
      ensures Linked(bufs[..], order) && order == Without(old(order), k)
      ensures forall j :: 0 <= j < NBUF ==> bufs[j] == old(bufs[j]).(next := bufs[j].next, prev := bufs[j].prev)
    {
      ghost var was := bufs[..];
      UnlinkLinks(was, order, k);
      bufs[bufs[b].next] := bufs[bufs[b].next].(prev := bufs[b].prev);
      bufs[bufs[b].prev] := bufs[bufs[b].prev].(next := bufs[b].next);
      assert bufs[..] == Unlink(was, b);
      order := Without(order, k);
    }

    /** binit and brelse put b right after the head. */
    method InsertFirst(b: nat)
      requires Linked(bufs[..], order) && b < NBUF && b !in order
      modifies this, bufs
      ensures Linked(bufs[..], order) && order == [b] + old(order)
      ensures forall j :: 0 <= j < NBUF ==> bufs[j] == old(bufs[j]).(next := bufs[j].next, prev := bufs[j].prev)
    {
      ghost var was := bufs[..];
      PushFrontLinks(was, order, b);
      bufs[b] := bufs[b].(next := bufs[HEAD].next, prev := HEAD);
      bufs[bufs[HEAD].next] := bufs[bufs[HEAD].next].(prev := b);
      bufs[HEAD] := bufs[HEAD].(next := b);
      assert bufs[..] == PushFront(was, b);
      order := [b] + order;
    }

    /** brelse, after the releasesleep: the last reference moves the buffer to the front. */
    method Brelse(b: nat)
      requires Valid() && b < NBUF && bufs[b].refcnt > 0
      modifies this, bufs
      ensures Valid()
      ensures bufs[b].refcnt > 0 ==> order == old(order)
      ensures bufs[b].refcnt == 0 ==>
                exists k :: 0 <= k < |old(order)| && old(order)[k] == b && order == [b] + Without(old(order), k)
      ensures bufs[b] == old(bufs[b]).(refcnt := old(bufs[b].refcnt) - 1, next := bufs[b].next, prev := bufs[b].prev)
      ensures forall j :: 0 <= j < NBUF && j != b ==>
                bufs[j] == old(bufs[j]).(next := bufs[j].next, prev := bufs[j].prev)
    {
      bufs[b] := bufs[b].(refcnt := bufs[b].refcnt - 1);
      assert forall i :: -1 <= i <= |order| ==> At(order, i) <= NBUF;
      if bufs[b].refcnt == 0 {
        assert b in order;
        ghost var k :| 0 <= k < |order| && order[k] == b;
        Remove(b, k);
        InsertFirst(b);
        assert forall j :: 0 <= j < NBUF && j in old(order) ==> j in order;
      }
    }

    /** bpin and bunpin. */
    method Bpin(b: nat)
      requires Valid() && b < NBUF
      modifies bufs
      ensures Valid() && bufs[..] == old(bufs[..])[b := old(bufs[b]).(refcnt := old(bufs[b].refcnt) + 1)]
    {
      bufs[b] := bufs[b].(refcnt := bufs[b].refcnt + 1);
    }

    method Bunpin(b: nat)
      requires Valid() && b < NBUF && bufs[b].refcnt > 0
      modifies bufs
      ensures Valid() && bufs[..] == old(bufs[..])[b := old(bufs[b]).(refcnt := old(bufs[b].refcnt) - 1)]
    {
      bufs[b] := bufs[b].(refcnt := bufs[b].refcnt - 1);
    }
  }

  // ---- the linked cache implements the cache of the log machine

  ghost predicate Matches(nodes: seq<Node>, bufs: seq<LogMachine.Buf>) {
    && |bufs| == NBUF && |nodes| == NBUF + 1
    && forall i :: 0 <= i < NBUF ==>
         && nodes[i].dev == bufs[i].dev && nodes[i].blockno == bufs[i].blockno
         && nodes[i].valid == bufs[i].valid && nodes[i].refcnt == bufs[i].refcnt
  }

  /** Every outcome of bget but the panic is a Get step of the log machine. */
  lemma BgetRefines(s: LogMachine.State, k: nat, owner: LogMachine.Owner, block: nat,
                    nodes: seq<Node>, order: seq<nat>, i: nat, nodes': seq<Node>)
    requires Matches(nodes, s.bufs) && GetPost(nodes, order, ROOTDEV, block, Some(i), nodes')
    requires k !in s.tickets && block < s.log.layout.nblocks
    requires LogMachine.Recovery(s.log.phase) ==> owner == LogMachine.Kernel
    requires owner.Op? ==> owner.id in s.log.ops
    ensures LogMachine.CanGet(s, k, owner, block, i)
    ensures Matches(nodes', LogMachine.DoGet(s, k, owner, block, i).bufs)
  {
    assert forall j :: 0 <= j < NBUF ==> (Holds(nodes[j], ROOTDEV, block) <==> LogMachine.Cached(s.bufs[j], block));
  }
}
