/** kernel/pipe.c: a ring of 512 bytes with 32-bit counters, its readers and writers, and who sleeps when. */
module Pipe {
  import opened Params

  const PIPESIZE: nat := 512
  const UINT: nat := 0x1_0000_0000

  /** struct pipe. */
  datatype Ring = Ring(data: seq<Byte>, nread: nat, nwrite: nat, readopen: bool, writeopen: bool)

  predicate Full(p: Ring) { p.nwrite == (p.nread + PIPESIZE) % UINT }

  predicate Empty(p: Ring) { p.nread == p.nwrite }

  predicate Shape(p: Ring) { |p.data| == PIPESIZE && p.nread < UINT && p.nwrite < UINT }

  // ---- one hold of pi->lock by a writer or a reader

  /** How a writer leaves: done (or its source page is gone), asleep on nwrite, or -1. */
  datatype Outcome = Finished | Blocked | Gone

  function Put(p: Ring, b: Byte): Ring
    requires Shape(p)
  {
    p.(data := p.data[p.nwrite % PIPESIZE := b], nwrite := (p.nwrite + 1) % UINT)
  }

  /** pipewrite's loop, from byte i on: copyin fails at byte `fail`, and the process is seen to be killed from byte
      `kill` on. */
  function WriteLoop(p: Ring, src: seq<Byte>, i: nat, fail: Option<nat>, kill: Option<nat>): (r: (Ring, nat, Outcome))
    requires Shape(p) && i <= |src|
    ensures Shape(r.0) && i <= r.1 <= |src|
    decreases |src| - i
  {
    if i == |src| then (p, i, Finished)
    else if !p.readopen || (kill.Some? && kill.value <= i) then (p, i, Gone)
    else if Full(p) then (p, i, Blocked)
    else if fail == Some(i) then (p, i, Finished)
    else WriteLoop(Put(p, src[i]), src, i + 1, fail, kill)
  }

  /** piperead's loop: the ring afterwards, the count returned, and the bytes taken; a byte whose copyout fails is
      taken. */
  function ReadLoop(p: Ring, n: nat, i: nat, fail: Option<nat>): (r: (Ring, nat, seq<Byte>))
    requires Shape(p) && i <= n
    ensures Shape(r.0)
    decreases n - i
  {
    if i == n || Empty(p) then (p, i, [])
    else
      var ch := p.data[p.nread % PIPESIZE];
      var p' := p.(nread := (p.nread + 1) % UINT);
      if fail == Some(i) then (p', i, [ch]) else
      var (q, k, s) := ReadLoop(p', n, i + 1, fail);
      (q, k, [ch] + s)
  }

  /** The counters are the numbers of bytes consumed and accepted, wrapped; what lies between them is in the ring. */
  ghost predicate Flow(p: Ring, accepted: seq<Byte>, consumed: seq<Byte>) {
    && Shape(p) && |consumed| <= |accepted| <= |consumed| + PIPESIZE && consumed == accepted[..|consumed|]
    && p.nread == |consumed| % UINT && p.nwrite == |accepted| % UINT
    && (forall k {:trigger Held(p, accepted, k)} :: |consumed| <= k < |accepted| ==> Held(p, accepted, k))
  }

  ghost predicate Held(p: Ring, accepted: seq<Byte>, k: nat)
    requires Shape(p) && k < |accepted|
  {
    p.data[k % PIPESIZE] == accepted[k]
  }

  /** Full and empty mean what they say, even after the counters have wrapped. */
  lemma Occupancy(p: Ring, accepted: seq<Byte>, consumed: seq<Byte>)
    requires Flow(p, accepted, consumed)
    ensures Full(p) <==> |accepted| - |consumed| == PIPESIZE
    ensures Empty(p) <==> accepted == consumed
  {
    Counters(|consumed|, |accepted|);
    assert |accepted| == |consumed| ==> accepted == accepted[..|consumed|];
  }

  lemma Counters(r: nat, w: nat)
    requires r <= w <= r + PIPESIZE
    ensures w % UINT == (r % UINT + PIPESIZE) % UINT <==> w - r == PIPESIZE
    ensures r % UINT == w % UINT <==> r == w
  {
  }

  lemma Slots(k: nat, w: nat)
    ensures w % UINT % PIPESIZE == w % PIPESIZE && (w % UINT + 1) % UINT == (w + 1) % UINT
    ensures k < w < k + PIPESIZE ==> k % PIPESIZE != w % PIPESIZE
  {
  }

  lemma PutFlows(p: Ring, accepted: seq<Byte>, consumed: seq<Byte>, b: Byte)
    requires Flow(p, accepted, consumed) && !Full(p)
    ensures Flow(Put(p, b), accepted + [b], consumed)
  {
    Occupancy(p, accepted, consumed);
    Slots(0, |accepted|);
    forall k | |consumed| <= k < |accepted| + 1 ensures Held(Put(p, b), accepted + [b], k) {
      if k < |accepted| { assert Held(p, accepted, k); Slots(k, |accepted|); }
    }
  }

  /** A writer's bytes are accepted in order, each once, and it stops only when it must. */
  lemma {:induction false} WriteFlows(p: Ring, src: seq<Byte>, i: nat, fail: Option<nat>, kill: Option<nat>,
                                      accepted: seq<Byte>, consumed: seq<Byte>)
    requires Flow(p, accepted, consumed) && i <= |src|
    ensures var (q, j, out) := WriteLoop(p, src, i, fail, kill);
            && Flow(q, accepted + src[i..j], consumed) && q.readopen == p.readopen && q.writeopen == p.writeopen
            && (out == Finished ==> j == |src| || fail == Some(j))
            && (out == Blocked ==> j < |src| && Full(q) && q.readopen)
            && (out == Gone ==> j < |src| && (!q.readopen ==> j == i))
            && (out == Gone && q.readopen ==> kill.Some? && kill.value <= j && (i < j ==> kill.value == j))
            && (i < j ==> p.readopen)
    decreases |src| - i
  {
    if i == |src| || !p.readopen || (kill.Some? && kill.value <= i) || Full(p) || fail == Some(i) {
      assert accepted + src[i..i] == accepted;
    } else {
      PutFlows(p, accepted, consumed, src[i]);
      WriteFlows(Put(p, src[i]), src, i + 1, fail, kill, accepted + [src[i]], consumed);
      var j := WriteLoop(p, src, i, fail, kill).1;
      assert accepted + [src[i]] + src[i + 1..j] == accepted + src[i..j];
    }
  }

  lemma TakeFlows(p: Ring, accepted: seq<Byte>, consumed: seq<Byte>)
    requires Flow(p, accepted, consumed) && !Empty(p)
    ensures var ch := p.data[p.nread % PIPESIZE];
            Flow(p.(nread := (p.nread + 1) % UINT), accepted, consumed + [ch]) && ch == accepted[|consumed|]
  {
    Occupancy(p, accepted, consumed);
    Slots(0, |consumed|);
    assert Held(p, accepted, |consumed|);
    var q := p.(nread := (p.nread + 1) % UINT);
    forall k | |consumed| + 1 <= k < |accepted| ensures Held(q, accepted, k) { assert Held(p, accepted, k); }
    assert accepted[..|consumed| + 1] == consumed + [accepted[|consumed|]];
  }

  /** A reader takes the oldest bytes, in order, each once; it takes fewer than asked for only when none are left. */
  lemma {:induction false} ReadFlows(p: Ring, n: nat, i: nat, fail: Option<nat>, accepted: seq<Byte>,
                                     consumed: seq<Byte>)
    requires Flow(p, accepted, consumed) && i <= n
    ensures var (q, k, s) := ReadLoop(p, n, i, fail);
            && Flow(q, accepted, consumed + s) && q.readopen == p.readopen && q.writeopen == p.writeopen && i <= k <= n
            && ((fail == Some(k) && k < n && |s| == k - i + 1) || (|s| == k - i && (k == n || Empty(q))))
    decreases n - i
  {
    if i == n || Empty(p) {
      assert consumed + [] == consumed;
    } else {
      TakeFlows(p, accepted, consumed);
      var ch := p.data[p.nread % PIPESIZE];
      var p' := p.(nread := (p.nread + 1) % UINT);
      if fail != Some(i) {
        ReadFlows(p', n, i + 1, fail, accepted, consumed + [ch]);
        var s := ReadLoop(p', n, i + 1, fail).2;
        assert consumed + [ch] + s == consumed + ([ch] + s);
      }
    }
  }
}
