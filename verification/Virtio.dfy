/** The driver code of kernel/virtio_disk.c, proved against the protocol. The code runs under vdisk_lock; sleep and
    wakeup are left to the caller: Submit returns false where virtio_disk_rw would sleep and try again. */
module Virtio {
  import opened Common
  import opened VirtioQueue

  /** What the proof follows of the requests, as in Queue. */
  datatype Track = Track(chains: map<int, Chain>, availQ: seq<nat>, usedQ: seq<nat>, done: nat, clears: seq<nat>)

  function TrackOf(q: Queue): Track {
    Track(q.chains, q.availQ, q.usedQ, q.done, q.clears)
  }

  class Disk {
    var free: seq<bool>
    var desc: seq<Desc>
    var ops: seq<BlkReq>
    var info: seq<Info>
    var availRing: seq<nat>
    var availIdx: nat
    var usedRing: seq<nat>
    var usedIdx: nat
    var readIdx: nat
    var devIdx: nat
    var flag: map<nat, bool>
    ghost var own: seq<int>
    ghost var t: Track

    ghost function Snap(): Queue
      reads this
    {
      Queue(free, desc, ops, info, availRing, availIdx, usedRing, usedIdx, readIdx, devIdx, flag, t.chains, own,
            t.availQ, t.usedQ,
            t.done, t.clears)
    }

    /** alloc_desc: the first free descriptor, or -1. */
    method AllocDesc() returns (i: int)
      requires Inv(Snap())
      modifies this`free, this`own
      ensures Inv(Snap())
      ensures i < 0 ==> i == -1 && Snap() == old(Snap()) && forall j :: 0 <= j < NUM ==> !free[j]
      ensures i >= 0 ==> i < NUM && old(free)[i] && Snap() == Reserve(old(Snap()), i)
    {
      hide Partition, Requests, RingOk, ClearedOnce, Indices;
      i := 0;
      while i < NUM
        invariant 0 <= i <= NUM && Snap() == old(Snap()) && forall j :: 0 <= j < i ==> !free[j]
      {
        if free[i] {
          ReserveKeeps(Snap(), i);
          free := free[i := false];
          own := own[i := -2];
          return;
        }
        i := i + 1;
      }
      return -1;
    }

    /** free_desc. */
    method FreeDesc(i: nat)
      requires Sizes(Snap()) && i < NUM && !free[i]
      modifies this`desc, this`free, this`own
      ensures Snap() == Release(old(Snap()), i)
    {
      desc := desc[i := NoDesc()];
      free := free[i := true];
      own := own[i := -1];
    }

    /** alloc3_desc. It fails exactly if fewer than three descriptors are free, and then has given back what it took. */
    method Alloc3Desc() returns (ok: bool, idx: seq<nat>)
      requires Inv(Snap()) && NoneInHand(own)
      modifies this`free, this`own, this`desc
      ensures Inv(Snap())
      ensures ok ==> |idx| == 3 && InHand(Snap(), idx[0], idx[1], idx[2]) && desc == old(desc)
      ensures ok ==> free == old(free)[idx[0] := false][idx[1] := false][idx[2] := false]
      ensures ok ==> forall i :: 0 <= i < NUM && i !in idx ==> own[i] == old(own)[i]
      ensures !ok ==> free == old(free) && own == old(own) && FewFree(free)
    {
      hide Partition, Requests, RingOk, ClearedOnce, Indices, NoneInHand;
      ghost var q := Snap();
      idx := [];
      var i := 0;
      while i < 3
        invariant i <= 3 && |idx| == i && Inv(Snap()) && desc == q.desc
        invariant Held(q, Snap(), idx)
      {
        ghost var h := Snap();
        var d := AllocDesc();
        if d < 0 {
          AllTaken(q, Snap(), idx);
          GiveBack(idx, q);
          return false, [];
        }
        HeldMore(q, h, idx, d);
        idx := idx + [d];
        i := i + 1;
      }
      return true, idx;
    }

    /** alloc3_desc's inner loop. */
    method GiveBack(idx: seq<nat>, ghost q: Queue)
      requires Sizes(q) && Inv(Snap()) && Held(q, Snap(), idx)
      modifies this`free, this`own, this`desc
      ensures Inv(Snap()) && free == q.free && own == q.own
    {
      var j := 0;
      while j < |idx|
        invariant j <= |idx| && Inv(Snap()) && Held(q, Snap(), idx[j..])
      {
        hide Inv;
        assert idx[j..][0] == idx[j];
        ReleaseKeeps(Snap(), idx[j]);
        ghost var h := Snap();
        FreeDesc(idx[j]);
        assert Snap() == Release(h, idx[j]);
        HeldLess(q, h, idx[j..]);
        assert idx[j..][1..] == idx[j + 1..];
        j := j + 1;
      }
    }

    /** free_chain, from the head of a chain. */
    method FreeChain(head: nat, ghost c: Chain)
      requires Sizes(Snap()) && Triple(c) && head == c.d0 && !free[c.d0] && !free[c.d1] && !free[c.d2]
      requires desc[c.d0].flags % 2 == 1 && desc[c.d0].next == c.d1 && desc[c.d1].flags % 2 == 1
      requires desc[c.d1].next == c.d2
      requires desc[c.d2].flags % 2 == 0
      modifies this`desc, this`free, this`own
      ensures Snap() == Release(Release(Release(old(Snap()), c.d0), c.d1), c.d2)
    {
      ghost var q := Snap();
      ghost var n := 0;
      var i := head;
      while true
        invariant 0 <= n <= 2 && i == (if n == 0 then c.d0 else if n == 1 then c.d1 else c.d2)
        invariant Snap() == if n == 0 then q else if n == 1 then Release(q, c.d0) else Release(Release(q, c.d0), c.d1)
        decreases 2 - n
      {
        var flags, nxt := desc[i].flags, desc[i].next;
        FreeDesc(i);
        if flags % 2 == 1 { i := nxt; } else { break; }
        n := n + 1;
      }
    }

    /** virtio_disk_rw's lines that format the three descriptors. */
    method Format(a: nat, b: nat, c: nat, buf: nat, write: bool, blockno: nat)
      requires |ops| == |desc| == |info| == NUM && a < NUM && b < NUM && c < NUM
      modifies this`ops, this`desc, this`info
      ensures ops == old(ops)[a := BlkReq(write, Sector(blockno))] && info == old(info)[a := Info(buf, 0xff)]
      ensures desc == old(desc)[a := Desc(Header(a), 16, NEXT, b)]
                               [b := Desc(Data(buf), BSIZE, (if write then 0 else WRITE) + NEXT, c)]
                               [c := Desc(Status(a), 1, WRITE, 0)]
    {
      ops := ops[a := BlkReq(write, Sector(blockno))];
      desc := desc[a := Desc(Header(a), 16, NEXT, b)];
      desc := desc[b := Desc(Data(buf), BSIZE, (if write then 0 else WRITE) + NEXT, c)];
      info := info[a := Info(buf, 0xff)];
      desc := desc[c := Desc(Status(a), 1, WRITE, 0)];
    }

    /** virtio_disk_rw's lines that put the request into the avail ring. */
    method Publish(a: nat, buf: nat)
      requires |availRing| == NUM
      modifies this`flag, this`availRing, this`availIdx
      ensures flag == old(flag)[buf := true] && availIdx == (old(availIdx) + 1) % 65536
      ensures availRing == old(availRing)[old(availIdx) % NUM := a]
    {
      flag := flag[buf := true];
      availRing := availRing[availIdx % NUM := a];
      availIdx := (availIdx + 1) % 65536;
    }

    /** Both. */
    method Send(a: nat, b: nat, c: nat, buf: nat, write: bool, blockno: nat)
      requires Inv(Snap()) && InHand(Snap(), a, b, c) && NotInFlight(Snap(), buf)
      modifies this
      ensures Inv(Snap()) && Snap() == Offer(old(Snap()), a, b, c, buf, write, blockno) && a as int !in old(t.chains)
    {
      hide Inv, NotInFlight;
      ghost var q := Snap();
      OfferKeeps(q, a, b, c, buf, write, blockno);
      OfferIsNew(q, a, b, c);
      Format(a, b, c, buf, write, blockno);
      Publish(a, buf);
      ghost var g := Offer(q, a, b, c, buf, write, blockno);
      own, t := g.own, TrackOf(g);
      assert Snap() == g;
    }

    /** virtio_disk_rw up to the notification: false if it has to wait for descriptors. */
    method Submit(buf: nat, write: bool, blockno: nat) returns (ok: bool, head: nat)
      requires Inv(Snap()) && NotInFlight(Snap(), buf) && NoneInHand(own)
      modifies this
      ensures Inv(Snap()) && NoneInHand(own)
      ensures !ok ==> t.chains == old(t.chains) && t.clears == old(t.clears) && flag == old(flag) && FewFree(old(free))
      ensures ok ==> head as int !in old(t.chains) && head as int in t.chains
      ensures ok ==> t.chains == old(t.chains)[head as int := t.chains[head as int]]
      ensures ok ==> var c := t.chains[head as int];
                c.buf == buf && c.write == write && c.blockno == blockno && c.phase == Offered
                  && c.no == |old(t.clears)|
      ensures ok ==> t.clears == old(t.clears) + [0] && flag == old(flag)[buf := true] && t.usedQ == old(t.usedQ)
    {
      hide Inv, FewFree, NoneInHand;
      InvSizes(Snap());
      var idx;
      ok, idx := Alloc3Desc();
      if !ok { return false, 0; }
      ghost var q := Snap();
      Send(idx[0], idx[1], idx[2], buf, write, blockno);
      HandEmpty(old(own), q.own, idx);
      return true, idx[0];
    }

    /** The device reads the avail ring, if its 16-bit index shows something new. */
    method DeviceTake() returns (head: nat)
      requires Inv(Snap()) && devIdx != availIdx
      modifies this`devIdx, this`t
      ensures Inv(Snap()) && head as int in old(t.chains) && old(t.chains)[head as int].phase == Offered
      ensures t.chains == SetPhase(old(t.chains), head, Taken)
    {
      hide Partition, Requests, RingOk, ClearedOnce, Indices;
      IndexTells(Snap());
      TakeKeeps(Snap());
      ghost var g := TakeNext(Snap());
      head := availRing[devIdx % NUM];
      devIdx := (devIdx + 1) % 65536;
      t := TrackOf(g);
      assert Snap() == g;
    }

    /** The device has carried out a request: it follows the chain to the status byte and fills the used ring. */
    method DeviceComplete(head: nat)
      requires Inv(Snap()) && head as int in t.chains && t.chains[head as int].phase == Taken
      modifies this`info, this`usedRing, this`usedIdx, this`t
      ensures Inv(Snap()) && t.chains == SetPhase(old(t.chains), head, Returned)
    {
      hide Inv;
      ghost var q := Snap();
      InvSizes(q);
      CompleteKeeps(q, head);
      StatusAddress(q, head);
      var status := desc[desc[desc[head].next].next].addr;
      info := info[status.head := info[status.head].(status := 0)];
      usedRing := usedRing[usedIdx % NUM := head];
      usedIdx := (usedIdx + 1) % 65536;
      ghost var g := Complete(q, head);
      t := TrackOf(g);
      assert Snap() == g;
    }

    /** One turn of virtio_disk_intr's loop. The status is 0, so the handler does not panic. */
    method IntrTurn() returns (buf: nat)
      requires Inv(Snap()) && readIdx != usedIdx
      modifies this`flag, this`readIdx, this`t
      ensures Inv(Snap()) && old(t.usedQ) != [] && t.usedQ == old(t.usedQ)[1..]
      ensures var h := old(t.usedQ)[0];
              && h in old(t.chains) && old(t.chains)[h].phase == Returned
              && t.chains == SetPhase(old(t.chains), h, Answered)
              && buf == old(t.chains)[h].buf && flag == old(flag)[buf := false]
              && old(t.chains)[h].no < |old(t.clears)| && old(t.clears)[old(t.chains)[h].no] == 0
              && t.clears == old(t.clears)[old(t.chains)[h].no := 1]
    {
      hide Inv;
      ghost var q := Snap();
      InvSizes(q);
      IndexTells(q);
      AnswerKeeps(q);
      AnsweredOnce(q);
      var id := usedRing[readIdx % NUM];
      InfoFacts(q, id);
      assert info[id].status == 0;
      buf := info[id].b;
      flag := flag[buf := false];
      readIdx := (readIdx + 1) % 65536;
      t := TrackOf(Answer(q));
      assert Snap() == Answer(q);
    }

    /** virtio_disk_intr while the device is idle: it answers everything the device has returned. */
    method Intr()
      requires Inv(Snap())
      modifies this`flag, this`readIdx, this`t
      ensures Inv(Snap()) && t.usedQ == [] && t.chains.Keys == old(t.chains).Keys
      ensures forall h :: h in t.chains ==>
                var c := old(t.chains)[h]; t.chains[h] == if c.phase == Returned then c.(phase := Answered) else c
    {
      hide Inv;
      IndexTells(Snap());
      while readIdx != usedIdx
        invariant Inv(Snap()) && t.chains.Keys == old(t.chains).Keys && (readIdx != usedIdx <==> t.usedQ != [])
        invariant forall h :: h in t.chains ==>
                    var c := old(t.chains)[h];
                    t.chains[h] == c || (c.phase == Returned && t.chains[h] == c.(phase := Answered))
        decreases |t.usedQ|
      {
        var _ := IntrTurn();
        IndexTells(Snap());
      }
      forall h | h in t.chains ensures t.chains[h].phase != Returned {
        AllRead(Snap(), h);
      }
    }

    /** virtio_disk_rw after its wait for b->disk: its request is over, and its descriptors are free. */
    method RwDone(head: nat)
      requires Inv(Snap()) && head as int in t.chains && t.chains[head as int].buf in flag
      requires !flag[t.chains[head as int].buf]
      modifies this`info, this`desc, this`free, this`own, this`t
      ensures Inv(Snap()) && old(t.chains)[head as int].phase == Answered && t.chains == old(t.chains) - {head as int}
      ensures var c := old(t.chains)[head as int];
              Triple(c) && free == old(free)[c.d0 := true][c.d1 := true][c.d2 := true]
    {
      hide Inv;
      ghost var q := Snap();
      InvSizes(q);
      FlagTells(q, head);
      ChainFacts(q, head);
      FinishKeeps(q, head);
      ghost var c := t.chains[head as int];
      info := info[head := info[head].(b := 0)];
      FreeChain(head, c);
      t := TrackOf(Finish(q, head));
      assert Snap() == Finish(q, head);
    }
  }

  /** A chain's descriptors are allocated and linked. */
  lemma ChainFacts(q: Queue, h: int)
    requires Inv(q) && h in q.chains
    ensures var c := q.chains[h];
            Triple(c) && c.d0 == h && Formatted(q, c) && !q.free[c.d0] && !q.free[c.d1] && !q.free[c.d2]
  {
    assert ChainOwned(q.own, h, q.chains[h]);
  }

  ghost predicate NoneInHand(own: seq<int>) {
    forall i :: 0 <= i < |own| ==> own[i] != -2
  }

  lemma HandEmpty(before: seq<int>, own: seq<int>, idx: seq<nat>)
    requires |before| == |own| == NUM && NoneInHand(before) && |idx| == 3 && idx[0] < NUM && idx[1] < NUM
    requires idx[2] < NUM
    requires forall i :: 0 <= i < NUM && i !in idx ==> own[i] == before[i]
    ensures NoneInHand(own[idx[0] := idx[0]][idx[1] := idx[0]][idx[2] := idx[0]])
  {
    assert forall i :: i in idx ==> i == idx[0] || i == idx[1] || i == idx[2];
  }

  /** The third descriptor of a chain names the status byte of its head. */
  lemma StatusAddress(q: Queue, h: int)
    requires Inv(q) && h in q.chains
    ensures 0 <= h < NUM && q.desc[h].next < NUM && q.desc[q.desc[h].next].next < NUM
    ensures q.desc[q.desc[q.desc[h].next].next].addr == Status(h)
  {
    ChainFacts(q, h);
  }

  lemma InfoFacts(q: Queue, h: int)
    requires Inv(q) && h in q.chains && q.chains[h].phase == Returned
    ensures 0 <= h < NUM && q.info[h].status == 0 && q.info[h].b == q.chains[h].buf
  {
    ChainFacts(q, h);
  }

  lemma InvSizes(q: Queue)
    requires Inv(q)
    ensures Sizes(q)
  {
  }

  lemma AnsweredOnce(q: Queue)
    requires Inv(q) && q.usedQ != [] && q.usedQ[0] in q.chains && q.chains[q.usedQ[0]].phase == Returned
    ensures q.chains[q.usedQ[0]].no < |q.clears| && q.clears[q.chains[q.usedQ[0]].no] == 0
  {
  }

  lemma OfferIsNew(q: Queue, a: nat, b: nat, c: nat)
    requires Inv(q) && InHand(q, a, b, c)
    ensures a as int !in q.chains
  {
    if a as int in q.chains { Owned(q, a); }
  }

  lemma AllRead(q: Queue, h: int)
    requires Inv(q) && q.usedQ == [] && h in q.chains
    ensures q.chains[h].phase != Returned
  {
  }

  /** Fewer than three descriptors are free. */
  ghost predicate FewFree(free: seq<bool>) {
    forall x, y, z :: 0 <= x < |free| && 0 <= y < |free| && 0 <= z < |free| && x != y && x != z && y != z ==>
        !(free[x] && free[y] && free[z])
  }

  /** From q to g exactly the descriptors in idx, free in q, have been allocated. */
  ghost predicate Held(q: Queue, g: Queue, idx: seq<nat>) {
    && Sizes(q) && Sizes(g) && Distinct(idx)
    && (forall k :: 0 <= k < |idx| ==>
          idx[k] < NUM && q.free[idx[k]] && q.own[idx[k]] == -1 && g.own[idx[k]] == -2 && !g.free[idx[k]])
    && (forall i :: 0 <= i < NUM && i !in idx ==> g.free[i] == q.free[i] && g.own[i] == q.own[i])
    && g == q.(free := g.free, own := g.own, desc := g.desc)
  }

  lemma HeldMore(q: Queue, g: Queue, idx: seq<nat>, d: nat)
    requires Inv(q) && Held(q, g, idx) && d < NUM && g.free[d]
    ensures Held(q, Reserve(g, d), idx + [d])
  {
    hide Requests, RingOk, ClearedOnce, Indices;
    var r := idx + [d];
    assert d !in idx;
    assert forall k :: 0 <= k < |r| ==> r[k] == if k < |idx| then idx[k] else d;
    forall i: nat | i < NUM && i !in r ensures i !in idx && i != d { assert r[|idx|] == d; }
  }

  lemma HeldLess(q: Queue, g: Queue, idx: seq<nat>)
    requires Held(q, g, idx) && idx != []
    ensures Held(q, Release(g, idx[0]), idx[1..])
  {
    var r := idx[1..];
    assert forall k :: 0 <= k < |r| ==> r[k] == idx[k + 1];
    forall i: nat | i < NUM && i !in r
      ensures Release(g, idx[0]).own[i] == q.own[i] && (Release(g, idx[0]).free[i] <==> q.free[i])
    {
      assert i != idx[0] ==> i !in idx;
    }
  }

  lemma AllTaken(q: Queue, g: Queue, idx: seq<nat>)
    requires Held(q, g, idx) && |idx| <= 2 && forall i :: 0 <= i < NUM ==> !g.free[i]
    ensures FewFree(q.free)
  {
    forall x, y, z | 0 <= x < NUM && 0 <= y < NUM && 0 <= z < NUM && x != y && x != z && y != z
      ensures !(q.free[x] && q.free[y] && q.free[z])
    {
      assert q.free[x] ==> x in idx;
      assert q.free[y] ==> y in idx;
      assert q.free[z] ==> z in idx;
    }
  }
}
