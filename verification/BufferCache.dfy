/** The buffer cache's list of buffers (kernel/bio.c). Buffers are named by their index in bcache.buf; HEAD stands for
    bcache.head. */
module BufferCache {
  import opened Common
  import LogLayout

  /** MAXOPBLOCKS * 3. */
  const NBUF: nat := 3 * LogLayout.MAXOPBLOCKS
  const HEAD: nat := NBUF

  datatype Buf = Buf(dev: nat, blockno: nat, valid: bool, refcnt: nat)

  // ----- the ring -----

  /** The i-th element of the ring that starts at HEAD and runs through `order`. */
  function At(order: seq<nat>, i: nat): nat {
    if 1 <= i <= |order| then order[i - 1] else HEAD
  }

  /** next leads from HEAD through order and back, and prev the other way. */
  ghost predicate Ring(next: seq<nat>, prev: seq<nat>, order: seq<nat>) {
    && |next| == |prev| == NBUF + 1 && Distinct(order) && (forall k :: 0 <= k < |order| ==> order[k] < NBUF)
    && (forall i, j :: 0 <= i <= |order| && j == i + 1 ==>
          next[At(order, i)] == At(order, j) && prev[At(order, j)] == At(order, i))
  }

  function Without(order: seq<nat>, k: nat): (r: seq<nat>)
    requires k < |order|
    ensures |r| == |order| - 1
    ensures forall j :: 0 <= j < |r| ==> r[j] == if j < k then order[j] else order[j + 1]
  {
    order[..k] + order[k + 1..]
  }

  /** The two lines of brelse that take a buffer out. */
  lemma Unlink(next: seq<nat>, prev: seq<nat>, order: seq<nat>, k: nat)
    requires Ring(next, prev, order) && k < |order|
    ensures var b := order[k];
            && next[b] <= NBUF && prev[b] <= NBUF
            && Ring(next[prev[b] := next[b]], prev[next[b] := prev[b]], Without(order, k))
  {
    var b := order[k];
    var r := Without(order, k);
    assert At(order, k + 1) == b && prev[b] == At(order, k) && next[b] == At(order, k + 2);
    forall i, j | 0 <= i <= |r| && j == i + 1
      ensures next[prev[b] := next[b]][At(r, i)] == At(r, j) && prev[next[b] := prev[b]][At(r, j)] == At(r, i)
    {
      var i', j' := if i <= k then i else i + 1, if j <= k then j else j + 1;
      assert At(r, i) == At(order, i') && At(r, j) == At(order, j');
    }
  }

  /** The four lines of brelse and binit that put a buffer in front. */
  lemma PushFront(next: seq<nat>, prev: seq<nat>, order: seq<nat>, b: nat)
    requires Ring(next, prev, order) && b < NBUF && b !in order
    ensures next[HEAD] <= NBUF && Ring(next[b := next[HEAD]][HEAD := b], prev[b := HEAD][next[HEAD] := b], [b] + order)
  {
    var r := [b] + order;
    var f := next[HEAD];
    assert At(order, 0) == HEAD && f == At(order, 1);
    forall i, j | 0 <= i <= |r| && j == i + 1
      ensures next[b := f][HEAD := b][At(r, i)] == At(r, j) && prev[b := HEAD][f := b][At(r, j)] == At(r, i)
    {
      assert i >= 1 ==> At(r, j) == At(order, j - 1);
      assert i >= 2 ==> At(r, i) == At(order, i - 1);
    }
  }

  // ----- the order of use -----

  /** The list runs from the latest to the earliest final brelse. */
  ghost predicate Sorted(order: seq<nat>, stamp: seq<int>, clock: int) {
    && |stamp| == NBUF && (forall k :: 0 <= k < |order| ==> order[k] < NBUF && stamp[order[k]] < clock)
    && (forall i, j :: 0 <= i < j < |order| ==> stamp[order[i]] > stamp[order[j]])
  }

  /** Every buffer is on the list. */
  ghost predicate Full(order: seq<nat>) {
    |order| == NBUF && forall b :: 0 <= b < NBUF ==> b in order
  }

  ghost function Place(order: seq<nat>, b: nat): (k: nat)
    requires b in order
    ensures k < |order| && order[k] == b
  {
    var k: nat :| k < |order| && order[k] == b; k
  }

  lemma InitialOrder(order: seq<nat>, stamp: seq<int>)
    requires |order| == |stamp| == NBUF && forall i :: 0 <= i < NBUF ==> order[i] == NBUF - 1 - i && stamp[i] == i
    ensures Full(order) && Sorted(order, stamp, NBUF)
  {
    forall b: nat | b < NBUF ensures b in order { assert order[NBUF - 1 - b] == b; }
  }

  /** At most one buffer holds a block, except that several may still be as binit left them. */
  ghost predicate Unique(bufs: seq<Buf>) {
    forall i, j :: 0 <= i < j < |bufs| && bufs[i].dev == bufs[j].dev && bufs[i].blockno == bufs[j].blockno ==>
      bufs[i].dev == 0 && bufs[i].blockno == 0
  }

  predicate Caches(b: Buf, dev: nat, blockno: nat) {
    b.dev == dev && b.blockno == blockno
  }

  lemma MovedSorted(order: seq<nat>, stamp: seq<int>, clock: int, k: nat)
    requires Sorted(order, stamp, clock) && Distinct(order) && k < |order|
    ensures Sorted([order[k]] + Without(order, k), stamp[order[k] := clock], clock + 1)
  {
    var b, r := order[k], [order[k]] + Without(order, k);
    assert forall j :: 1 <= j < |r| ==> r[j] == order[if j - 1 < k then j - 1 else j] && r[j] != b;
  }

  lemma MovedFull(order: seq<nat>, k: nat)
    requires Full(order) && Distinct(order) && k < |order|
    ensures Full([order[k]] + Without(order, k)) && order[k] !in Without(order, k)
  {
    var r := [order[k]] + Without(order, k);
    forall b | 0 <= b < NBUF ensures b in r {
      var i := Place(order, b);
      assert b == if i < k then r[i + 1] else if i == k then r[0] else r[i];
    }
  }

  class Cache {
    var bufs: seq<Buf>
    var next: seq<nat>
    var prev: seq<nat>
    ghost var order: seq<nat>
    ghost var stamp: seq<int>
    ghost var clock: int

    ghost predicate Valid()
      reads this
    {
      && |bufs| == NBUF && Ring(next, prev, order) && Full(order) && Sorted(order, stamp, clock) && Unique(bufs)
    }

    /** binit's loop. */
    method LinkAll()
      requires |next| == |prev| == NBUF + 1 && next[HEAD] == prev[HEAD] == HEAD && order == []
      modifies this`next, this`prev, this`order
      ensures Ring(next, prev, order) && |order| == NBUF && forall i :: 0 <= i < NBUF ==> order[i] == NBUF - 1 - i
    {
      var b := 0;
      while b < NBUF
        invariant b <= NBUF && Ring(next, prev, order) && |order| == b
        invariant forall i :: 0 <= i < b ==> order[i] == b - 1 - i
      {
        PushFront(next, prev, order, b);
        next := next[b := next[HEAD]];
        prev := prev[b := HEAD];
        prev := prev[next[HEAD] := b];
        next := next[HEAD := b];
        order := [b] + order;
        b := b + 1;
      }
    }

    /** binit, on zeroed memory. */
    constructor ()
      ensures Valid() && (forall b :: 0 <= b < NBUF ==> bufs[b] == Buf(0, 0, false, 0) && stamp[b] == b)
    {
      bufs := seq(NBUF, _ => Buf(0, 0, false, 0));
      next := seq(NBUF + 1, _ => HEAD);
      prev := seq(NBUF + 1, _ => HEAD);
      order := [];
      stamp := seq(NBUF, i => i);
      clock := NBUF;
      new;
      LinkAll();
      InitialOrder(order, stamp);
    }

    /** bget's first loop, from head.next on: the first buffer of the list that caches the block, or HEAD. */
    method Lookup(dev: nat, blockno: nat) returns (b: nat)
      requires Valid()
      ensures b <= NBUF
      ensures b == HEAD ==> forall i :: 0 <= i < NBUF ==> !Caches(bufs[i], dev, blockno)
      ensures b != HEAD ==> Caches(bufs[b], dev, blockno)
      ensures b != HEAD ==>
                forall i :: 0 <= i < NBUF && Caches(bufs[i], dev, blockno) ==> stamp[i] <= stamp[b]
    {
      ghost var k: nat := 1;
      assert At(order, 0) == HEAD && At(order, 1) == order[0];
      b := next[HEAD];
      while b != HEAD
        invariant 1 <= k <= NBUF + 1 && b == At(order, k) && b <= NBUF
        invariant forall j :: 0 <= j < k - 1 ==> !Caches(bufs[order[j]], dev, blockno)
        decreases NBUF + 1 - k
      {
        assert b == order[k - 1];
        if Caches(bufs[b], dev, blockno) {
          forall i | 0 <= i < NBUF && Caches(bufs[i], dev, blockno) ensures stamp[i] <= stamp[b] {
            var j := Place(order, i);
          }
          return;
        }
        b := next[b];
        k := k + 1;
      }
      forall i | 0 <= i < NBUF ensures !Caches(bufs[i], dev, blockno) {
        var j := Place(order, i);
      }
    }

    /** bget's second loop, from head.prev on: the unreferenced buffer that was released longest ago, or HEAD. */
    method Oldest() returns (b: nat)
      requires Valid()
      ensures b <= NBUF
      ensures b == HEAD ==> forall i :: 0 <= i < NBUF ==> bufs[i].refcnt > 0
      ensures b != HEAD ==> bufs[b].refcnt == 0
      ensures b != HEAD ==> forall i :: 0 <= i < NBUF && bufs[i].refcnt == 0 && i != b ==> stamp[i] > stamp[b]
    {
      ghost var k: nat := NBUF;
      assert At(order, NBUF + 1) == HEAD;
      b := prev[HEAD];
      while b != HEAD
        invariant 0 <= k <= NBUF && b == At(order, k) && b <= NBUF
        invariant forall j :: k <= j < NBUF ==> bufs[order[j]].refcnt > 0
        decreases k
      {
        assert b == order[k - 1];
        if bufs[b].refcnt == 0 {
          forall i | 0 <= i < NBUF && bufs[i].refcnt == 0 && i != b ensures stamp[i] > stamp[b] {
            var j := Place(order, i);
          }
          return;
        }
        b := prev[b];
        k := k - 1;
      }
      forall i | 0 <= i < NBUF ensures bufs[i].refcnt > 0 {
        var j := Place(order, i);
      }
    }

    /** bget without the sleep lock. HEAD stands for the panic: the block is not cached and every buffer is in use. */
    method Bget(dev: nat, blockno: nat) returns (b: nat)
      requires Valid()
      modifies this
      ensures Valid() && next == old(next) && prev == old(prev) && stamp == old(stamp) && clock == old(clock)
      ensures order == old(order)
      ensures b <= NBUF
      ensures b == HEAD ==> bufs == old(bufs)
      ensures b == HEAD ==> forall i :: 0 <= i < NBUF ==> bufs[i].refcnt > 0 && !Caches(bufs[i], dev, blockno)
      ensures b != HEAD ==> Caches(bufs[b], dev, blockno) && bufs == old(bufs)[b := bufs[b]]
      ensures b != HEAD && Caches(old(bufs)[b], dev, blockno) ==>
                bufs[b] == old(bufs)[b].(refcnt := old(bufs)[b].refcnt + 1)
      ensures b != HEAD && !Caches(old(bufs)[b], dev, blockno) ==>
                && bufs[b] == Buf(dev, blockno, false, 1) && old(bufs)[b].refcnt == 0
                && (forall i :: 0 <= i < NBUF ==> !Caches(old(bufs)[i], dev, blockno))
                && (forall i :: 0 <= i < NBUF && old(bufs)[i].refcnt == 0 && i != b ==> stamp[i] > stamp[b])
    {
      b := Lookup(dev, blockno);
      if b != HEAD {
        bufs := bufs[b := bufs[b].(refcnt := bufs[b].refcnt + 1)];
        return;
      }
      b := Oldest();
      if b != HEAD {
        bufs := bufs[b := Buf(dev, blockno, false, 1)];
      }
    }

    /** brelse's lines for the last reference. */
    method MoveToFront(b: nat)
      requires b < NBUF && Ring(next, prev, order) && Full(order) && Sorted(order, stamp, clock)
      modifies this`next, this`prev, this`order, this`stamp, this`clock
      ensures Ring(next, prev, order) && Full(order) && Sorted(order, stamp, clock)
      ensures order[0] == b && stamp == old(stamp)[b := old(clock)] && clock > old(clock)
      ensures order == [b] + Without(old(order), Place(old(order), b))
    {
      ghost var k := Place(order, b);
      Unlink(next, prev, order, k);
      MovedSorted(order, stamp, clock, k);
      MovedFull(order, k);
      var n, p := next[b], prev[b];
      prev := prev[n := p];
      next := next[p := n];
      PushFront(next, prev, Without(order, k), b);
      next := next[b := next[HEAD]];
      prev := prev[b := HEAD];
      prev := prev[next[HEAD] := b];
      next := next[HEAD := b];
      order, stamp, clock := [b] + Without(order, k), stamp[b := clock], clock + 1;
    }

    /** brelse without the sleep lock. The last reference moves the buffer to the front. */
    method Brelse(b: nat)
      requires Valid() && b < NBUF && bufs[b].refcnt > 0
      modifies this
      ensures Valid() && bufs == old(bufs)[b := old(bufs)[b].(refcnt := old(bufs)[b].refcnt - 1)]
      ensures old(bufs)[b].refcnt > 1 ==>
                order == old(order) && stamp == old(stamp) && next == old(next) && prev == old(prev)
      ensures old(bufs)[b].refcnt == 1 ==> order[0] == b && stamp == old(stamp)[b := old(clock)] && clock > old(clock)
      ensures old(bufs)[b].refcnt == 1 ==> forall i :: 0 <= i < NBUF && i != b ==> stamp[i] < stamp[b]
    {
      hide Ring;
      bufs := bufs[b := bufs[b].(refcnt := bufs[b].refcnt - 1)];
      if bufs[b].refcnt == 0 {
        MoveToFront(b);
        forall i: nat | i < NBUF && i != b ensures stamp[i] < stamp[b] { var j := Place(order, i); }
      }
    }

    method Bpin(b: nat)
      requires Valid() && b < NBUF
      modifies this`bufs
      ensures Valid() && bufs == old(bufs)[b := old(bufs)[b].(refcnt := old(bufs)[b].refcnt + 1)]
    {
      bufs := bufs[b := bufs[b].(refcnt := bufs[b].refcnt + 1)];
    }

    method Bunpin(b: nat)
      requires Valid() && b < NBUF && bufs[b].refcnt > 0
      modifies this`bufs
      ensures Valid() && bufs == old(bufs)[b := old(bufs)[b].(refcnt := old(bufs)[b].refcnt - 1)]
    {
      bufs := bufs[b := bufs[b].(refcnt := bufs[b].refcnt - 1)];
    }
  }
}
